# Verified models of QEMU's coordination code and the TPM firmware's transport

A Dafny project that models five pieces of the repository and proves what each
of them is for. `dafny verify dfyconfig.toml` checks all of it.

* **vCPU exclusive sections** (`qemu/cpu-common.c`). `ExclusiveProtocol` is the
  handshake between `start_exclusive`, `end_exclusive`, `cpu_exec_start` and
  `cpu_exec_end` as a state machine: one program counter per CPU, one step per
  shared access, any number of CPUs, any interleaving, spurious wake-ups
  included, together with the per-CPU work queues. `ExclusiveInvariant` and
  `ExclusiveTheorems` prove mutual exclusion, the counting law of
  `pending_cpus`, that no wake-up is lost, and that the protocol cannot
  deadlock; `ExclusiveBound` bounds how long a CPU that has asked for the
  section waits; `ExclusiveNesting` ties sections and work lists to the calls in
  the schedule.
* **Block graph** (`qemu/block.c`). `BlockGraph`, `TopologicalOrder`,
  `Permissions`, `PermRefresh`, `PermLoosening`, `PermOrder`, `GraphTransaction`
  and `GraphRewiring` hold the theory: reachability and cycles, the DFS order,
  permission propagation as a fixpoint that does not depend on that order, what
  loosening does, the undo log with its reference counts, and redirecting edges
  without making a cycle.
  `BlockLayer.Graph` is the code in place, proved against that theory.
  `AioContextMove` is the move of a connected component between AioContexts.
* **Image commands** (`qemu/qemu-img.c`). `ImageBuffers` has the buffer scans,
  `ImageCompare` and `ImageRebase` the loops of `compare` and of safe `rebase`.
  `ConvertContent` is what one worker of `convert` does, and `ConvertWorkers`
  with its invariants and theorems is the cooperation of any number of them
  under every schedule; `ConvertWorkersSparse` is what buffers and `-S 0` promise.
* **Jobs** (`qemu/job.c`, `qemu/blockjob.c`). `JobModel` is one job,
  `JobTransactions` and `JobRun` are the calls of the API as steps of a state
  machine over all jobs and transactions, `JobSafety` and `JobSteps` prove the
  invariant kept by every call, `JobTheorems` states what follows for every
  run, `JobOutcomes` and `JobCalls` what each call means to its caller without
  naming the model's own functions, `JobPending` that a transaction waits for a
  manual finalisation only when asked to, `JobExample` is a run that splits a
  transaction, and `JobManager.Jobs` runs the same calls in place, loop by loop
  and field by field.
* **TPM transport** (`firmware/main.c`). `TpmTransport` has the packing of a
  command into words and the header-driven reading of a response.

## How the models stand to the code

A call into a driver, the block layer below or a device is a parameter that may
answer in any way its contract allows: block status, allocation status, read and
write failures, `bdrv_child_perm`, permission checks, prepare callbacks and the
driver's answer to a cancel request. I/O that fails does so nondeterministically
and may leave its own range half written.

Assumptions that the code makes of its callers are preconditions:

* jobs: the assertions at the head of each call; a driver's `cancel` callback
  returns true when it is forced or when the job is not READY or STANDBY; the
  members of a transaction are all created before one is started and all started
  before one completes or is cancelled. A call with its callbacks is one step,
  except that the abort loop may wait for members that still run
  (`JobTransactions.Contract`);
* rebase: allocation is uniform on blocks of `write_align` bytes;
* convert: block status answers in whole sectors; a range reported as unallocated
  reads alike in the source and in the target's backing file;
* AioContext: the connected component shares one context before the move.

Where the code and what is written about it part ways, the code is modelled:

* `TpmTransport`: the padded length is computed in 32 bits and wraps to 0 for a
  length above 0xFFFF_FFFC. `SendCommand` then sends nothing, and
  `ReadWholeResponse` then takes the header only. Both contracts say so exactly.
* `PermLoosening.LooseningCanFail`: a refresh that only loosens restrictions can
  still fail, because a writer without the resize permission is refused on an
  image of unaligned size. `PermLoosening.TakingParentAway` gives the exact
  condition.
* `JobExample.MixedExample`: when a prepare callback fails, the job on whose
  behalf the transaction is finalised may commit although the others abort.
  `JobTheorems.MixedExactly` says when: if and only if the first callback to fail
  belongs to another job.
* `ImageBuffers.IsAllocatedSectors`: the comment promises true exactly when the
  first sector holds data; the code also answers true for a leading run of zero
  sectors that ends too early before an aligned position (`ShortZeroRun`, exactly
  as the contract says; `ImageBuffers.ZeroReportedAsData` is such an input).

## Model

| member | source | states |
|---|---|---|
| ExclusiveTheorems.MutualExclusion | qemu/cpu-common.c:191-321 | In every reachable state with a CPU inside its exclusive section, no other CPU is exclusive, no CPU executes guest code, `pending_cpus` is 1 and no CPU is flagged. |
| ExclusiveNesting.RunFollows | qemu/cpu-common.c:133-246 | In every run each CPU's work list, nesting count and place in the protocol are what the `start_exclusive`, `end_exclusive`, queueing and taking events of the schedule alone say. |
| ExclusiveNesting.SectionsNest | qemu/cpu-common.c:191-246 | In every run a CPU is inside a section exactly from the return of its outermost `start_exclusive` to the matching `end_exclusive`, and `exclusive_context_count` is the depth of the calls in the schedule. |
| ExclusiveNesting.StartEntersOnce | qemu/cpu-common.c:199-204 | A nested `start_exclusive` returns at once, one level deeper; any other sets out for a section from depth 0. |
| ExclusiveNesting.EndLeavesOutermost | qemu/cpu-common.c:235-242 | `end_exclusive` gives the section up if and only if it brings the depth to 0. |
| ExclusiveNesting.SectionsExclude | qemu/cpu-common.c:191-246 | From the return of the outermost `start_exclusive` to the matching `end_exclusive`, no other CPU is in such a section and none executes guest code. |
| ExclusiveTheorems.ExclusiveWorkRunsAlone | qemu/cpu-common.c:348-385 | A queued item marked exclusive runs while no CPU executes and no other CPU runs an exclusive item. |
| ExclusiveTheorems.PendingCountsWaiters | qemu/cpu-common.c:182-232 | Outside the counting scan `pending_cpus` is 0 exactly when nobody owns the section, and otherwise one more than the CPUs that have still to pass `cpu_exec_end`. |
| ExclusiveTheorems.NoLostWakeup | qemu/cpu-common.c:207-224 | A sleeping `start_exclusive` has a flagged CPU that will still decrement and signal; a CPU sleeping for the section to end has an owner that will still broadcast. |
| ExclusiveTheorems.LastReleaseSignals | qemu/cpu-common.c:289-321 | The decrement that leaves 1 cannot go on without waking the sleeping owner. |
| ExclusiveTheorems.StartExclusiveAssertion | qemu/cpu-common.c:191-200 | The assertion that the caller is not running holds whenever `start_exclusive` can be called. |
| ExclusiveTheorems.WorkInOrder | qemu/cpu-common.c:133-141 | In every run each CPU's work list is a FIFO queue: nothing queued is lost, doubled or overtaken. |
| ExclusiveNesting.WorkFollowsSchedule | qemu/cpu-common.c:133-141 | The functions called on a CPU are those of the items queued for it, in the order of the queueing events of the schedule; the rest of them waits in that order. |
| ExclusiveTheorems.NoDeadlock | qemu/cpu-common.c:182-321 | While some CPU is inside the protocol, some CPU inside it can move without a spurious wake-up. |
| ExclusiveBound.NextCloser | qemu/cpu-common.c:182-321 | While a CPU that has counted the others waits, each step of it or of a CPU it waits for brings it at least one closer, and no step takes it back, except by two when it is woken without a signal. |
| ExclusiveBound.SectionComes | qemu/cpu-common.c:191-224 | In every continuation of every run, while a CPU that has counted the others waits for its section, at most twelve steps for each CPU, four of its own and two for each of its spurious wake-ups can be steps of it or of a CPU it waits for: those steps cannot go on without the section. |
| ExclusiveBound.SomethingMatters | qemu/cpu-common.c:207-321 | In every reachable state in which it waits, some such step is possible, or the holder of the lock can go on. |
| ExclusiveInvariant.RunInv | qemu/cpu-common.c:182-385 | Every state of every run satisfies the protocol's invariant. |
| TpmTransport.PartOfJoin | firmware/main.c:275-287 | Taking bytes out of a big-endian word inverts putting them in. |
| TpmTransport.StreamOfPacked | firmware/main.c:270-287 | Byte `i` of a stream of packed words is byte `i` of the message, or 0 in the padding. |
| TpmTransport.PaddedIs | firmware/main.c:270 | The padded length is the next multiple of four, or 0 once 32 bits overflow. |
| TpmTransport.PackValue | firmware/main.c:273-287 | The packed words, read as digits in base 2^32 with the most significant first, are the same number as the zero-padded bytes in base 256. |
| TpmTransport.StreamLeads | firmware/main.c:315-322 | Bytes taken off a stream of words are, as a number in base 256, the leading bytes of the number the words are in base 2^32. |
| TpmTransport.SendCommand | firmware/main.c:254-291 | The control register, then exactly the packed words of the command, then the command register are written, in this order; no words for a length whose padding overflows. The words in base 2^32 are the number the padded bytes are in base 256, most significant first. |
| TpmTransport.AwaitAnswer | firmware/main.c:299-311 | The busy wait ends at the first status other than PROCESSING and answers by the next read; a refusal reads the status once more. |
| TpmTransport.ReadHeader | firmware/main.c:315-323 | Three words are taken and stored most significant byte first, so that bytes and words are the same number; nothing beyond them changes. |
| TpmTransport.ReadRest | firmware/main.c:346-366 | The rest is stored most significant byte first up to the announced size and no further, also when the device stops sending early. |
| TpmTransport.ReadResponse | firmware/main.c:299-366 | All outcomes of reading: no answer, an unusable size, a response cut short, a whole response; what is stored, consumed and left alone in each. The announced size is bytes 2 to 5 of what was stored, most significant first. |
| TpmTransport.ReadWholeResponse | firmware/main.c:299-366 | A response packed as a command is rebuilt byte for byte, consumes exactly its words, and nothing is stored at or beyond max(S, 12). |
| TopologicalOrder.TopologicalDfs | qemu/block.c:2287-2321 | A call adds exactly the nodes reachable from its root that were not listed, before the old list, each node before its children, without duplicates. |
| TopologicalOrder.OrderSubtrees | qemu/block.c:2618-2630 | Repeated calls over one `found` set list exactly the nodes reachable from the roots, duplicate-free, parents first. |
| Permissions.DefaultPermsMonotone | qemu/block.c:2759-2907 | Default child permissions are monotone: a looser claim on the parent gives a looser claim on the child. |
| Permissions.DefaultPermsAre | qemu/block.c:2759-2907 | For every role, which permissions are taken on the child and which are left to others: a filter passes all on, a backing file is read if the parent reads and never written, storage takes and shares exactly what is listed permission by permission. |
| PermRefresh.NodeErrorIs | qemu/block.c:2244-2267 | A node passes the refresh if and only if no parent takes what another does not share, it is writable or nobody writes, its size is aligned or somebody may resize or nobody writes, and its driver agrees to the sum; and which failure is reported. All of it is said of single edges. |
| PermRefresh.NodeSettledIs | qemu/block.c:2507-2577 | A settled node is one that can serve all its parents and whose children carry what its driver asks for the sum of them, with everything shared where the child forces sharing. |
| PermRefresh.RefreshFixpoint | qemu/block.c:2507-2608 | A successful refresh of a sorted list is a fixpoint: every listed node serves its parents (`Serves`: no conflict, no writer on a read-only node, no unaligned size, driver agreed) and its children carry what its driver asks for them (`ChildrenServed`); other edges are unchanged. |
| PermLoosening.RefreshSucceedsIff | qemu/block.c:2587-2608 | A refresh succeeds if and only if no listed node objects in the recomputed graph. |
| PermOrder.RecomputeSolves | qemu/block.c:2587-2608 | The pass over a topological order solves the equations between the permissions above and below each listed node. |
| PermOrder.SolutionsAgree | qemu/block.c:2587-2608 | Along a topological order those equations have one solution. |
| PermOrder.OrderDoesNotMatter | qemu/block.c:2610-2630 | Any two topological orders of the same nodes give the same permissions and the same verdict, so the order in which lists are walked does not matter. |
| PermLoosening.RecomputeLooser | qemu/block.c:3305-3311 | Recomputing a graph that is looser gives a graph that is looser on every edge. |
| PermLoosening.DefaultsMonotone | qemu/block.c:2759-2907 | An environment whose drivers use the default permissions is monotone. |
| PermLoosening.TakingParentAway | qemu/block.c:3297-3322 | After taking a parent edge from a settled graph every edge below loosens and no conflict arises; the refresh fails if and only if a node objects to its size or its driver refuses. |
| PermLoosening.LooseningCanFail | qemu/block.c:2533-2547 | A concrete settled graph in which the refresh after taking a parent away fails. |
| GraphTransaction.ApplyRollback | qemu/block.c:2329-2360 | For every logged operation, rolling back the whole log after it reaches the same edges, permissions and net references as rolling the log back before it: the operation leaves nothing behind. |
| GraphTransaction.AbortRestores | qemu/block.c:2422-2498 | Abort after any sequence of operations restores every edge, permission pair and net reference count. |
| GraphTransaction.TransactionConserves | qemu/block.c:3019-3172 | After any sequence of operations, and after commit or abort, each node's count equals its incoming edges plus what the log, scheduled unrefs and outside owners hold. |
| GraphTransaction.UnrefHasReference | qemu/block.c:7162-7204 | In every transaction, wherever it stands and at every step of its abort or commit, there are at least as many references to a node as unrefs scheduled for it, and an unref made at once finds its reference. |
| GraphTransaction.RunUnrefConserves | qemu/block.c:7171-7204 | Running a scheduled unref finds a reference to give back and keeps every count accounted for. |
| GraphTransaction.CommitKeepsEdges | qemu/block.c:5298-5328 | Commit deletes exactly the removed edges and changes no other. |
| GraphTransaction.AbortDefers | qemu/block.c:3019-3060 | An abort gives a reference back at once only for a replacement; without one it leaves every count to the scheduled unrefs. |
| GraphRewiring.AddEdgeAcyclic | qemu/block.c:3197-3201 | An edge to a node that does not reach its owner closes no cycle. |
| GraphRewiring.RetargetAcyclic | qemu/block.c:5337-5369 | Redirecting an edge that is not in the subtree of the new target keeps the graph acyclic. |
| GraphRewiring.RetargetKeepsSubtree | qemu/block.c:5219-5296 | Redirecting such an edge leaves the subtree of the new target, hence the answer for every other edge, unchanged. |
| GraphRewiring.ReplacingStep | qemu/block.c:5337-5369 | Redirecting edges one at a time decides each edge as in the graph before the first redirect, and stays acyclic. |
| BlockLayer.RecurseHasChild | qemu/block.c:4324-4339 | On an acyclic graph the recursion ends and decides reachability. |
| BlockLayer.ShouldUpdateChild | qemu/block.c:5219-5296 | The breadth-first search answers false exactly when the edge must stay or lies in the subtree of the new node. |
| BlockLayer.Graph.ChildSetPerm | qemu/block.c:2344-2360 | Sets the permissions of one edge and logs the old ones. |
| BlockLayer.Graph.ReplaceChildTran | qemu/block.c:2478-2498 | Redirects one edge, takes a reference on the new node and logs the old one. |
| BlockLayer.Graph.RemoveChild | qemu/block.c:5316-5328 | Detaches one edge and logs its removal. |
| BlockLayer.Graph.AttachChildCommon | qemu/block.c:3074-3172 | Adds a fresh edge and logs it, or refuses exactly when an inactive node would get more than consistent reads. |
| BlockLayer.Graph.GetCumulativePerm | qemu/block.c:2632-2648 | A permission is in the result if and only if some parent takes it, and is shared if and only if every parent shares it. |
| BlockLayer.Graph.ParentPermsConflict | qemu/block.c:2244-2267 | Answers false if and only if every parent's permissions are shared by every other parent. |
| BlockLayer.Graph.NodeRefreshPerm | qemu/block.c:2508-2577 | Succeeds if and only if the node can serve its parents, said of single edges; a writer on a read-only node is refused as such; nothing changes on failure. On success the children are settled and a driver that was asked has a record for its callback. |
| BlockLayer.Graph.RefreshChildrenPerm | qemu/block.c:2566-2574 | Every child edge gets its child permissions; nothing else changes. |
| BlockLayer.Graph.DoRefreshPerms | qemu/block.c:2587-2608 | Computes the refresh of the whole list, or fails exactly where that fails. |
| BlockLayer.Graph.ListRefreshPerms | qemu/block.c:2619-2630 | Succeeds exactly when the refresh in any topological order of the nodes below the roots does; then every such node serves its parents and is served by its children, every driver below was asked, and all other edges are unchanged. |
| BlockLayer.Graph.AttachChildNoperm | qemu/block.c:3184-3215 | Refuses exactly what would close a cycle or use an inactive node, with nothing changed; otherwise adds exactly the edge the driver asks for and stays acyclic; an inactive child is only ever attached below an inactive parent and for consistent reads. |
| BlockLayer.Graph.ReplaceNodeNoperm | qemu/block.c:5338-5369 | Moves exactly the edges that may move, judged in the graph before the call; a frozen edge or one that stays at its node is as before; fails exactly for a frozen edge or an edge that must not move and may not be skipped; stays acyclic. |
| BlockLayer.Graph.Finalize | qemu/util/transactions.c:60-100 | Runs the callbacks over the whole log, newest first: commit, or a full rollback, and the calls into the drivers that go with it. |
| BlockLayer.CommitTells | qemu/block.c:2362-2373 | On commit every driver that was asked is told the permissions its node ends up with. |
| BlockLayer.AbortTells | qemu/block.c:2375-2383 | On abort every driver that was asked is told to forget it. |
| BlockLayer.AskedTold | qemu/block.c:2362-2391 | After a commit the driver of every node below the roots has been told exactly what its parents then take and share. |
| BlockLayer.Graph.AttachChild | qemu/block.c:3263-3294 | Attaches, settles everything below the parent and tells the drivers there, or leaves the edges as they were; which of the two is decided by the refusal and the refresh alone. The caller's reference to the child is taken over either way: all counts are accounted for with one reference less held outside, and on failure the child's net count is one less and every other is unchanged. |
| BlockLayer.Graph.ReplaceNodeCommon | qemu/block.c:5385-5439 | Replaces a node in its parents, settles both subtrees and tells their drivers, or leaves the graph as it was, decided by the refusal and the refresh alone. |
| BlockLayer.Graph.Append | qemu/block.c:5479-5521 | Puts a node on top of another with its users moved, permissions settled and drivers told, or leaves the graph as it was, decided by the refusals and the refresh alone; refused when it would close a cycle. |
| BlockLayer.AppendedTargets | qemu/block.c:5479-5521 | Where every edge points after an append, in terms of the graph before, and that every node below the new one serves its parents and is served by its children. |
| BlockLayer.Graph.RootUnrefChild | qemu/block.c:3297-3322 | The edge is gone, the graph acyclic, references conserved, and from a settled graph under monotone drivers every permission loosens even if the refresh is rolled back. |
| AioContextMove.Mover.ChangeNode | qemu/block.c:7646-7687 | The recursive phase records exactly the part it walks, drains a node once for each record of it, and uses up an edge on each recursion. |
| AioContextMove.Mover.ParentChange | qemu/block.c:7571-7597 | One parent edge is walked, or refused when its class or backend cannot move. |
| AioContextMove.Mover.ChildChange | qemu/block.c:7599-7609 | One child edge is walked unless it was visited. |
| AioContextMove.Mover.JobChange | qemu/blockjob.c:147-171 | A job carries all its nodes along. |
| AioContextMove.Mover.CommitMoves | qemu/block.c:7622-7630 | Exactly the recorded things change their context. |
| AioContextMove.Mover.CleanMoves | qemu/block.c:7611-7620 | Every drain of the first phase is taken back. |
| AioContextMove.Mover.TryChange | qemu/block.c:7696-7733 | The whole connected component moves or nothing does; it succeeds if and only if the context is already the target's or every user in the component can move; drain counts end as they began. |
| ImageBuffers.FindNonzero | qemu/qemu-img.c:1153-1167 | The first 512-byte step with a non-zero byte, or -1 if and only if the buffer is all zero. |
| ImageBuffers.CompareBuffers | qemu/qemu-img.c:1284-1309 | Status of the first chunk and the maximal run of chunks that share it. |
| ImageBuffers.IsAllocatedSectors | qemu/qemu-img.c:1179-1230 | Data is reported exactly when the first sector holds data or a zero run ends too early; a data report is a stretch without zero sectors, widened by less than the alignment on either side, a zero report ends less than that before the next data; both end aligned unless the buffer ends. |
| ImageBuffers.ZeroReportedAsData | qemu/qemu-img.c:1170-1230 | An input for which the comment is wrong: a zero sector before a data sector at the start of the disk, with alignment 8, meets `ShortZeroRun`, the condition under which the if-and-only-if in the contract of `ImageBuffers.IsAllocatedSectors` reports a zero sector as data. |
| ImageBuffers.IsAllocatedSectorsMin | qemu/qemu-img.c:1237-1274 | The same with short zero gaps counted as data: behind a data range come at least `min` zero sectors or nothing but zero sectors, and within it no stretch of `min` plus twice the alignment is zero. |
| ImageCompare.CheckEmptySectors | qemu/qemu-img.c:1328-1349 | Verdict on whether a range is all zero, or an error. |
| ImageCompare.CompareRange | qemu/qemu-img.c:1545-1588 | One round of the loop is right for every combination of allocation and zero status; it reads what is allocated and not known to be zero on both sides, at most a buffer at a time, and gives a verdict only if those reads succeed. |
| ImageCompare.CompareTail | qemu/qemu-img.c:1593-1628 | The tail of the longer image is compared with zeroes, part by part without a gap; an error is reported for the query or the read that failed. |
| ImageCompare.ImgCompare | qemu/qemu-img.c:1511-1631 | Result 0 implies equal content up to zero extension, 1 different content, 3 a failed query, 4 a failed read. The parts compared follow each other from 0 without a gap; in strict mode each of them has the same block status in both images, and a loop that stops early stops for the first of: a failed query, in strict mode a different status, a failed read or different content. |
| ImageCompare.CompareDecides | qemu/qemu-img.c:1511-1631 | Without I/O errors the non-strict result is 0 if and only if the shorter image extended with zeroes equals the longer. |
| ImageCompare.StrictDecides | qemu/qemu-img.c:1511-1631 | Without I/O errors, and where the block status does not depend on where in an extent one asks, the strict result is 0 if and only if sizes, contents and the block status of every byte are equal. |
| ImageRebase.DeferredRead | qemu/qemu-img.c:3873-3901 | A byte no layer above the prefix holds reads the same from the prefix of the chain. |
| ImageRebase.CopiedDiffers | qemu/qemu-img.c:3948-3975 | A block touched by copying up is one where the two chains differ. |
| ImageRebase.SwitchBacking | qemu/qemu-img.c:3980-3990 | Once every byte is held or reads alike, naming the new chain changes no byte. |
| ImageRebase.CowImage.WidenedUnallocated | qemu/qemu-img.c:3902-3915 | The region widened to whole blocks is unallocated as the code asserts. |
| ImageRebase.CowImage.NextRegion | qemu/qemu-img.c:3855-3915 | The next range needs no copy, or is widened to unallocated blocks; it always reaches beyond where it started. |
| ImageRebase.CowImage.CopyRun | qemu/qemu-img.c:3954-3970 | Writing a run of unequal chunks leaves the visible content as it was, even when the write fails half way. |
| ImageRebase.CowImage.CopyStep | qemu/qemu-img.c:3951-3976 | A run of equal chunks is skipped, a run of unequal ones copied; afterwards the run is settled. |
| ImageRebase.CowImage.CopyRegion | qemu/qemu-img.c:3917-3976 | Every byte of the region ends held by the image or alike in both chains, with backing files of any size. |
| ImageRebase.CowImage.SafeRebase | qemu/qemu-img.c:3805-3990 | After every write and on every exit, failed or not, each byte of the image reads as before over the backing file it names; it fails only when a request failed, and otherwise ends on the new chain; blocks are copied only where the chains differ; zeroes are written exactly where a write starts beyond the end of the old backing file. |
| ConvertContent.SelectPart | qemu/qemu-img.c:1704-1714 | Finds the one source that holds the sector and where it starts in the whole; the assertion that there is one holds. |
| ConvertContent.Converter.RefreshStatus | qemu/qemu-img.c:1738-1801 | The status remembered is true of every sector up to the remembered end and is the one the source's answer calls for, with zeroes beyond the target's backing file left to it; at least one sector is covered, and fewer than the answer covers only to stay aligned. |
| ConvertContent.Converter.IterationSectors | qemu/qemu-img.c:1717-1821 | A non-empty range within the disk with a true status, in whole clusters for compressed output, otherwise within the request limit and not across the end of the target's backing file; a cached status is not asked for again. |
| ConvertContent.Converter.CoRead | qemu/qemu-img.c:1823-1874 | The buffer holds the range as it lies across the joined sources. |
| ConvertContent.Converter.WriteOnce | qemu/qemu-img.c:1877-1939 | One pass of the write loop writes, zeroes or skips exactly as the buffer and the options demand, and touches only its own sectors; what shows through or is zero anyway is not written, and `-S 0` writes all data. |
| ConvertContent.PassCopies | qemu/qemu-img.c:1877-1939 | Whichever way a pass takes - written, zero-written, skipped on a zeroed target, left to the backing file - untouched sectors read as the sources afterwards. |
| ConvertContent.Converter.CoWrite | qemu/qemu-img.c:1877-1939 | On success the whole range reads as the sources; nothing outside it changes, and nothing at all where the backing file or the zeroed target shows through. |
| ConvertWorkersInvariant.BaseStep | qemu/qemu-img.c:1972-2093 | Every step keeps ranges disjoint, statuses true, the lock exclusive and the running count exact. |
| ConvertWorkersInvariant.ContentStep | qemu/qemu-img.c:1972-2093 | Every step keeps every claimed sector nobody holds at its final content, until something fails. |
| ConvertWorkersOrder.OrderStep | qemu/qemu-img.c:2040-2085 | Every step keeps the write log contiguous, one writer at a time, and somebody unfinished behind every parked worker. |
| ConvertWorkersOrder.WakeIs | qemu/qemu-img.c:2068-2085 | Waking resumes exactly the one worker parked at the new write position. |
| ConvertWorkersPasses.HitStep | qemu/qemu-img.c:1972-2093 | Every step keeps that no sector is dealt with twice or before it is claimed, and that a sector given back has been dealt with unless something failed. |
| ConvertWorkersTheorems.RunInv | qemu/qemu-img.c:1972-2156 | Every state of every run satisfies all invariants, and a run only fails by a step that failed. |
| ConvertWorkersTheorems.SuccessMeansCopied | qemu/qemu-img.c:2086-2093 | If the result is 0, every sector of the target reads as the joined sources and lies in exactly one pass of the write loop, with ordered and unordered writes; ordered passes end at the end of the disk. |
| ConvertWorkersTheorems.EndIsDecided | qemu/qemu-img.c:2086-2093 | When the last worker has left a run without faults, the result is 0. |
| ConvertWorkersTheorems.WritesInOrder | qemu/qemu-img.c:2040-2085 | Ordered writes are contiguous from sector 0 with one writer at a time, also in failing runs. |
| ConvertWorkersTheorems.ContiguousHits | qemu/qemu-img.c:2040-2085 | Contiguous passes deal once with each sector before their end and with no other. |
| ConvertWorkersTheorems.ClaimsPartition | qemu/qemu-img.c:1990-2085 | While an ordered run is under way the claimed sectors split into the finished prefix, which ends at `wr_offs` and has its final content, and disjoint ranges of workers. |
| ConvertWorkersTheorems.ParkedHasRunner | qemu/qemu-img.c:2040-2049 | Behind every parked worker there is one at a lower sector that can go on, also after an error. |
| ConvertWorkersTheorems.FinishWakes | qemu/qemu-img.c:2068-2085 | The worker that finishes a range lets the one parked behind it go on in the same step. |
| ConvertWorkersTheorems.NeverStuck | qemu/qemu-img.c:1972-2093 | Until every worker has left, some worker has a step to take that is no fault. |
| ConvertWorkersTheorems.RunsEnd | qemu/qemu-img.c:2132-2145 | Every run is finite: its length is bounded by the sectors and the workers. |
| ConvertWorkersSparse.RunFits | qemu/qemu-img.c:1990-2055 | In every run no range that is read or filled with zeroes is longer than a buffer, and with `-S 0` no worker writes with status ZERO and every sector dealt with is written unless there is a backing file. |
| ConvertWorkersSparse.FullyAllocated | qemu/qemu-img.c:1895-2055 | A successful conversion with `-S 0` to a target without a backing file has written every sector. |
| JobInvariant.CancelAsyncOk | qemu/job.c:888-924 | The assertion on the pause counter and that of the I/O status reset hold; only pauses and cancel flags change. |
| JobInvariant.UserResumeOk | qemu/job.c:740-758 | Resuming resets the I/O status without tripping its assertion and keeps the job well-formed. |
| JobInvariant.StopOnErrorOk | qemu/blockjob.c:578-622 | Stopping on an error pauses the job for the user once and keeps it well-formed. |
| JobInvariant.ContinueOk | qemu/job.c:609-642 | Coming out of a pause point returns to the status before it, by an allowed transition. |
| JobInvariant.FinalizedOk | qemu/job.c:846-883 | A finalised job commits exactly when it has no error and is not force-cancelled, and is concluded or dismissed. |
| JobRun.SoloOk | qemu/job.c:538-758 | Every call on one job keeps it well-formed and its standing in its transaction. |
| JobSafety.AbortInv | qemu/job.c:929-969 | Aborting a transaction on behalf of a failed or cancelled member keeps the invariant, whether or not it has to wait. |
| JobSafety.DoFinalizeInv | qemu/job.c:996-1008 | Finalising a transaction keeps the invariant, whichever prepare callbacks fail. |
| JobSteps.StepInv | qemu/job.c:391-1163 | Every call that respects its contract keeps the invariant; every transition it makes is in the table. |
| JobTheorems.StepKeeps | qemu/job.c:538-561 | In every call completed jobs stay completed, outcomes stay, and a coroutine is woken only out of a yield. |
| JobTheorems.CompletedForever | qemu/job.c:59-72 | In every run a completed job stays completed and keeps its outcome. |
| JobTheorems.FreedOnlyDismissed | qemu/job.c:463-485 | In every run a job without references is dismissed, in no transaction, with no timer pending. |
| JobTheorems.PausesAccounted | qemu/job.c:690-758 | In every run the pause counter is the sum of its causes, a non-OK I/O status implies a user pause, and a started job is idle exactly when its coroutine has yielded. |
| JobTheorems.AllOrNothing | qemu/job.c:804-1075 | In every run in which no prepare callback of a transaction's own members fails, its members finalised so far all committed with no error or all aborted with one, whatever other transactions do. |
| JobTheorems.FinalizeOutcome | qemu/job.c:972-1008 | The exact outcome of every member when a transaction is finalised, for every pattern of prepare results. |
| JobTheorems.MixedExactly | qemu/job.c:996-1008 | Some members commit and others abort if and only if the first failing prepare callback is that of another job than the one finalised. |
| JobExample.MixedExample | qemu/job.c:929-1008 | A run in which that happens: two jobs are created in one transaction, started and return without an error; finalising job 2 while the callback of job 1 fails ends with job 1 aborted and job 2 committed. |
| JobTheorems.LateCancelAborts | qemu/job.c:1137-1163 | Cancelling a pending job aborts every member of its transaction in the same call. |
| JobTheorems.WaitsForCancelled | qemu/job.c:958-966 | The assertion of the abort loop holds in every run: a member it waits for has been asked to stop. |
| JobOutcomes.AbortEach | qemu/job.c:929-969 | Aborting a transaction, member by member: those that have completed, up to the first that has not, end with their own error or as cancelled, the calling job with its own result; the others stay and are told to stop. |
| JobOutcomes.DoFinalizeMeans | qemu/job.c:972-1008 | Without a failing prepare callback every member ends committed; otherwise the first to fail in the order of the list ends with its error, the calling job commits and all others end as cancelled. |
| JobOutcomes.SuccessMeaning | qemu/job.c:1037-1061 | While a member still runs nothing happens; otherwise all become PENDING together, and unless one of them wants to be finalised by hand all end in the same call as the prepare callbacks demand. |
| JobOutcomes.ExitMeaning | qemu/job.c:1064-1096 | What the end of a job means for every member of its transaction, in every case: failed or cancelled in a transaction that aborts already, failed or cancelled first, returned well before the others, returned well as the last with and without a manual finalisation. |
| JobPending.PendingOnlyIfAsked | qemu/job.c:1053-1060 | In every run a transaction with a PENDING member between calls has a member that wants to be finalised by hand. |
| JobCalls.FinalizeMeaning | qemu/job.c:1010-1017 | Only a pending job is finalised, and then every member ends as the prepare callbacks demand. |
| JobCalls.CancelMeaning | qemu/job.c:1137-1163 | In every status: a concluded job is dismissed, one that never ran ends cancelled, one that is done takes its transaction down, a running one is told to stop, loses its user pause, and is woken if it sleeps. |
| JobCalls.LoopMeaning | qemu/job.c:958-969 | When the abort loop goes on, the members it reaches end with an error and the others are left alone. |
| JobCalls.SoloMeaning | qemu/job.c:538-785 | What each call on one job does, field by field: a pending pause parks a job at its pause point, a permitted user pause leaves it paused for the user, the last resume wakes it unless a timer will, a timer wakes it, and so on. |
| JobCalls.CreateMeaning | qemu/job.c:391-461 | A new job waits to be started, paused once, and heads the list of its transaction. |
| JobCalls.EarlyFailMeaning | qemu/job.c:787-793 | A job given up before it runs leaves its transaction without an outcome; the other members stay. |
| JobManager.Jobs.FinalizeFirst | qemu/job.c:177-200 | The loop over the list finalises its members in order. |
| JobManager.Jobs.CancelOthers | qemu/job.c:942-957 | The first loop of the abort cancels every other member by force and leaves the calling job alone. |
| JobManager.Jobs.RunAbortLoop | qemu/job.c:958-969 | The second loop finalises exactly the leading completed members and gives its references back at the end. |
| JobManager.Jobs.CompletedTxnAbort | qemu/job.c:929-969 | Both loops together, with the end or the order to stop they mean for every member, or nothing when the transaction is aborting already. |
| JobManager.Jobs.PrepareAll | qemu/job.c:972-987 | Stops at the first member whose callback fails, with only that member changed. |
| JobManager.Jobs.DoFinalizeJob | qemu/job.c:996-1008 | Prepares, then finalises every member or aborts on behalf of the calling job; every member ends as the prepare callbacks demand. |
| JobManager.Jobs.CompletedTxnSuccess | qemu/job.c:1037-1061 | Waits for the others, or moves all members to PENDING together; unless one wants to be finalised by hand, every member ends in this call as the prepare callbacks demand. |
| JobManager.Jobs.JobExit | qemu/job.c:1064-1096 | The end of a job in place keeps the invariant and means for every member of the transaction what `ExitMeans` says, case by case; no job of another transaction changes. |
| JobManager.Jobs.JobCancel | qemu/job.c:1137-1163 | Cancelling in place keeps the invariant and does, for every status a job can have, what `CancelMeans` says. |
| JobManager.Jobs.JobFinalize | qemu/job.c:1010-1017 | Finalising in place ends every member of a pending job's transaction as the prepare callbacks demand, and does nothing to any other job. |
| JobManager.Jobs.AbortLoopGoesOn | qemu/job.c:958-969 | The loop in place goes on: the members it now reaches end with an error, the others are left alone. |
| JobManager.Jobs.EnterCond | qemu/job.c:538-561 | For a well-formed job the three tests come to one: it is woken, busy and with its timer off, exactly when its coroutine had yielded, and then it stays well-formed; in every other case the job, and always every other job, is as before (`WokenWell`). |
| JobManager.Jobs.PauseLocked | qemu/job.c:690-696 | One more pause is counted; a well-formed job stays well-formed with its status group, transaction and outcome, is not left sleeping outside a pause point, and a pause that is not the user's is taken back by resuming (`PausedWell`); no other job changes. |
| JobManager.PauseMeans | qemu/job.c:690-712 | Pausing any well-formed job keeps `JobOk`, and resuming afterwards gives the pause accounting of before. |
| JobManager.Jobs.JobPause | qemu/job.c:690-702 | Adds a pause its caller will take back; keeps the invariant. |
| JobManager.Jobs.JobResume | qemu/job.c:704-714 | Takes a pause back, kicks the job only when it was the last and no timer will, and keeps the invariant. |
| JobManager.Jobs.JobUserPause | qemu/job.c:722-733 | Pauses once for the user, or changes nothing when the verb is not allowed or the user has paused it already. |
| JobManager.Jobs.JobUserResume | qemu/job.c:740-758 | Resets the I/O status and takes the user's pause back, or changes nothing; keeps the invariant. |
| JobManager.Jobs.BlockJobErrorAction | qemu/blockjob.c:578-622 | Stops the job for the user and sets its I/O status, in place; keeps the invariant. |
| JobManager.Jobs.JobStart | qemu/job.c:1121-1135 | Starts a created job, by an allowed transition; keeps the invariant. |
| JobManager.Jobs.JobPausePoint | qemu/job.c:609-642 | Yields into PAUSED or STANDBY when a pause is pending and the job is not force-cancelled; keeps the invariant. |
| JobManager.Jobs.JobProceed | qemu/job.c:578-642 | Goes on after a yield with the busy assertion holding, and restores the status out of a pause point. |
| JobManager.Jobs.JobDismiss | qemu/job.c:761-785 | Dismisses a concluded job and gives its reference back, or changes nothing; keeps the invariant. |

## Left out

- Weak memory, RCU, mutex internals and the graph reader/writer lock: steps are atomic and sequentially consistent.
- CPU hot-plug during the exclusive protocol: the set of CPUs is fixed in a run.
- `bdrv_open*`, reopen, filename refresh, format probing and QMP front ends: plumbing around the modelled calls.
- BlockLayer.Graph.AttachChildCommon: the change of AioContext while attaching is not part of it; `AioContextMove` models that move by itself.
- BlockLayer.Graph.AttachChildNoperm: the driver is asked for the new edge's permissions by the identity the edge will have, where the code passes no edge; the refusal when the AioContext cannot be changed is left out with that move.
- BlockLayer.Graph.ReplaceNodeCommon: `detach_subchain`, `inherits_from` and the drain assertions are left out.
- BlockLayer.Graph.ReplaceNodeNoperm: parents and children are sets, so the lists are walked in any order rather than in insertion order.
- BlockLayer.Graph.RootUnrefChild: the move of the node back to the main AioContext is left out.
- AioContextMove.Mover.TryChange: the case of an ignored child is left out.
- ImageRebase.CowImage.SafeRebase: the capacity of the staging buffers and the size of the image header are not modelled; the unsafe mode has no content promise to prove.
- ConvertContent.Converter.CoRead: salvage mode, which replaces unreadable sectors by zeroes, is left out.
- ConvertContent.Converter.WriteOnce: a compressed write stores its sectors like a plain one; its encoding and the final alignment call are left out.
- ConvertWorkersTheorems.SuccessMeansCopied: copy offloading is left out, and a worker that is woken is runnable at once instead of being entered in the middle of its waker's step.
- JobSteps.StepInv: the events sent to the monitor, progress counters, rate limits and job identifiers are left out; freed jobs stay in the model as records without references so that their outcome can be spoken about.
- `job_complete_locked` and `job_finish_sync_locked`: the first only calls the driver, the second is a sequence of the modelled calls with a wait.
- JobManager.Jobs.JobExit: the driver's commit, abort, clean and completion callbacks run as part of the call and do not call back into the job API.
- TpmTransport.ReadResponse: the UART, the menu, the constant commands and the TPM device itself are left out.
