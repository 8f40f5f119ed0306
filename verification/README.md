# Verified models of QEMU core algorithms

This project models five parts of QEMU in Dafny 4.11 and proves what they promise:

* **The exclusive-section protocol of the vCPU threads** (`cpus-common.c`): a lock-free fast path and a
  counted rendezvous, as an interleaved machine for any number of CPUs.
* **The block graph** (`block.c`, with parts of `blockjob.c` and `block/block-backend.c`): permissions that
  are checked, set and rolled back along a directed acyclic graph, attaching, detaching and replacing
  nodes, reference counts, and moving connected nodes to another AioContext.
* **Background jobs** (`job.c`, `blockjob.c`): the status machine, the pause accounting and the
  transactions, under every interleaving of commands, driver steps and the event loop.
* **Image conversion, comparison and rebase** (`qemu-img.c`): chunked and sparse algorithms against the
  plain contents of the images, and the in-order coroutines of the conversion.
* **The GDB remote packet codec** (`gdbstub.c`): escapes, run lengths, checksums and framing.

`dafny verify dfyconfig.toml` checks the whole project.

## How to read it

Code that only computes is a function. Code that changes things in place is a method of a class
(`BlockLayer.Layer`, `BlockRefs.Nodes`, `BlockAioMove.Contexts`, `JobLayer.Transaction`, `ImgConvert.Converter`,
`ImgRebase.Overlay`, `GdbPacket.GdbServer`) or a method with a loop, proved equal to a function on values or
against a plain property. The laws are lemmas about those functions. Protocols are step relations whose
invariant is proved step by step and then lifted to whole runs.

| files | what they hold |
|---|---|
| CpuExclusive, CpuRuns | threads, lock, `pending_cpus`; mutual exclusion, counting, no lost wakeup |
| GdbPacket | parser, encoders, round trip |
| Lists, Reach, BlockGraph, BlockEdit | lists, paths, the graph of nodes and edges, single edits |
| BlockPerms, BlockRollback, BlockCompat, BlockExact, BlockLoosen, BlockOps | permission check, set and abort, and what they keep |
| BlockChange, BlockReplace, BlockForceShare, BlockSafety, BlockRefresh, BlockRuns, BlockLayer | attach, detach, node replacement, what always holds, refreshing an edge, whole runs, the methods in place |
| BlockAio, BlockAgree, BlockAioMove, BlockContexts | AioContext moves, what they keep, the methods in place, whole runs with permissions and contexts |
| BlockRefs, BlockRanks | reference counts |
| JobState, JobTxn, JobOutcome, JobLayer | one job, a transaction of jobs, how it ends, the methods in place |
| ImgBytes, ImgSparse, ImgRounding, ImgCompare, ImgConvert, ImgConvertCo, ImgRebase | the image commands |

## Findings

* `bdrv_replace_node` keeps the graph acyclic and users compatible, but a moved edge can end up looser than
  its owner needs: when the old target had `force_share` and the new one does not. `ReplaceKeepsInv` gives the
  exact condition and `ForceShareLost` a graph in which it happens. Detaching another user then reports
  tightening, which the assertion in `bdrv_replace_child` rules out (`AssertionFails`). Users stay compatible
  all the same (`UsersAlwaysCompatible`), and it is the only way to lose tightness: a run keeps it if and only
  if no replacement loses `force_share` (`EdgesStayTight`). A refresh of the edge that is
  granted restores it (`RefreshKeepsInv`).
* A failed finalization of a transaction aborts all its jobs if and only if the job it was asked of is the
  first that failed to prepare. Otherwise that job commits while the others are aborted
  (`FinalOutcome`, `OneCommitsOneAborts`).
* `is_allocated_sectors` answers yes for a zero sector when the zero run does not reach back beyond the last
  aligned sector, although its comment says otherwise (`DocumentedAnswer`). The model follows the code.
* The mismatch offset of `qemu-img compare` counts sectors from the start of a chunk, so it starts a sector of
  the image exactly when the chunk does (`ReportedSector`, `UnalignedReport`).
* `convert_iteration_sectors` rounds the length of a block status up to sectors. What is true of the bytes is
  then true of the sectors for lengths that are a multiple of a sector, and for no other length
  (`ClassifiedIff`, `PartialRun`). The conversion is proved for statuses that are true of their bytes and end
  with a sector; a status of data that is read anyway may have any length.

## Model

| member | source | states |
|---|---|---|
| CpuRuns.MutualExclusion | cpus-common.c:173-301 | in every state of every run, while one thread is between `start_exclusive` and `end_exclusive`, no other thread is there and no CPU is between `cpu_exec_start` and `cpu_exec_end` |
| CpuRuns.PendingCounts | cpus-common.c:182-216 | `pending_cpus` is one more than the number of CPUs with `has_waiter` once the count is stored, and zero with no mark outside exclusive periods; every marked CPU still has its locked decrement ahead |
| CpuRuns.NoLostWakeup | cpus-common.c:191-227 | while a thread sleeps for the marked CPUs, one of them has its decrement ahead or is about to signal under the lock; while one sleeps in `exclusive_idle`, another owns the exclusive period or is about to broadcast under the lock |
| CpuRuns.NoDeadlock | cpus-common.c:191-227 | unless every thread is outside, some thread that is not can move |
| CpuRuns.SingleSleeper | cpus-common.c:205-208 | at most one thread waits for `exclusive_cond`, so one signal is enough |
| CpuExclusive.MoveKeepsInv | cpus-common.c:229-301 | every step of every thread keeps the invariant behind these results |
| CpuRuns.RunKeepsInv | cpus-common.c:173-301 | the invariant holds in every state of every run |
| CpuExclusive.DecrementKeepsInv | cpus-common.c:291-300 | the locked decrement of `cpu_exec_end` keeps the count right |
| CpuExclusive.LookKeepsInv | cpus-common.c:191-203 | marking a running CPU during the scan keeps the count right |
| GdbPacket.GdbServer.ReadByte | gdbstub.c:2869-3014 | the parser on its buffer does what one step of the packet grammar says |
| GdbPacket.GdbServer.ReadPlain | gdbstub.c:2911-2931 | a byte in the line state: escape, repeat, end of line or data |
| GdbPacket.GdbServer.ReadEscaped | gdbstub.c:2932-2946 | an escaped byte, also at the end of the buffer |
| GdbPacket.GdbServer.ReadRepeat | gdbstub.c:2947-2976 | a repeat count, with its bounds and error cases |
| GdbPacket.GdbServer.ReadChecksum | gdbstub.c:2977-3009 | the two checksum digits, the reply and the hand-over |
| GdbPacket.AnyStreamStaysInBounds | gdbstub.c:2869-3014 | for every byte stream the index stays within the buffer |
| GdbPacket.PacketAccepted | gdbstub.c:2900-3009 | every legal packet, with escapes and run lengths, is decoded to its expansion and acknowledged, whatever the case of its checksum digits |
| GdbPacket.RoundTrip | gdbstub.c:640-710 | every payload below 4096 bytes, escaped, framed and fed to an idle parser, is handed over unchanged and acknowledged |
| GdbPacket.TooLongIsDropped | gdbstub.c:2920-2943 | a longer payload is dropped without a reply, so the bound is exact |
| GdbPacket.StubRoundTrip | gdbstub.c:2869-2899 | the round trip through the stub, with its handling of acknowledgements and of a running machine |
| GdbPacket.SignedSumIsByteSum | gdbstub.c:655-665 | adding signed characters gives the same checksum as adding bytes |
| GdbPacket.GdbServer.PutPacketBinary | gdbstub.c:640-687 | the frame sent for a buffer, and what is kept for a retransmission |
| GdbPacket.MemToX | gdbstub.c:694-710 | escaping appends the escaped form of every byte |
| GdbPacket.MemToHex | gdbstub.c:584-593 | two digits for every byte, and a terminator |
| GdbPacket.HexToMem | gdbstub.c:595-604 | every two digits become a byte, and what `memtohex` wrote is read back |
| BlockPerms.ChildPermMonotone | block.c:2372-2517 | the default permission maps are monotone: looser users need a looser child |
| BlockPerms.ChildPermSharesUnchanged | block.c:1949-1964 | a child never has to forbid WRITE_UNCHANGED |
| BlockRollback.ExactRollback | block.c:2091-2107 | after a check of a node, failed or not, the abort restores the permissions of every edge and leaves no backup, even for edges staged several times |
| BlockRollback.ExactChildRollback | block.c:2267-2322 | the same for the check of one edge |
| BlockCompat.CheckUpdateCompat | block.c:2204-2265 | a successful check leaves any two users of a node compatible |
| BlockCompat.CheckChildCompat | block.c:2267-2297 | the same for the check of one edge, in a graph with diamonds |
| BlockExact.CheckUpdateExact | block.c:2204-2265 | after a successful check every edge below has exactly the permissions its owner's users call for, even when a subtree was reached several times |
| BlockExact.SetConfirms | block.c:2109-2138 | setting the permissions after a check confirms exactly what was staged |
| BlockExact.ChildSetConfirms | block.c:2299-2311 | the same for one edge |
| BlockLoosen.LoosenNode | block.c:1984-2083 | checking a node for no more than it has reports no tightening |
| BlockLoosen.LoosenChild | block.c:2267-2297 | the same for one edge |
| BlockOps.LooseningNeverFails | block.c:2324-2353 | a request for fewer permissions that tolerates more always returns success |
| BlockOps.TrySetKeepsInv | block.c:2324-2353 | a refused permission change changes nothing; a granted one keeps the invariant if and only if the request agrees with what the owner of the edge needs |
| BlockRefresh.RootSetKeepsInv | block.c:2324-2353 | whatever the user of an edge that no node owns asks for, the invariant is kept |
| BlockRefresh.RefreshKeepsInv | block.c:2355-2365 | refreshing an edge for its owner keeps the invariant; when granted it also restores it for an edge that was too loose, and when refused it changes nothing |
| BlockRefresh.RefreshIsExact | block.c:2355-2365 | from any state with compatible users, a granted refresh gives the edge, and every edge below, exactly what its owner's users need |
| BlockOps.RecheckKeepsInv | block.c:2638-2654 | the node that lost a user is updated without tightening, and the invariant is kept whether or not a driver objects |
| BlockChange.DetachKeepsInv | block.c:2773-2782 | removing an edge keeps the invariant and never tightens |
| BlockChange.RootAttachKeepsInv | block.c:2672-2733 | attaching a user keeps the invariant; on failure graph and permissions are exactly as before |
| BlockChange.AttachChildKeepsInv | block.c:2746-2771 | attaching a child to a node keeps the invariant, the new edge being as tight as its owner needs |
| BlockReplace.ShouldUpdateChild | block.c:4478-4555 | the breadth-first search accepts an edge exactly when it may move and is not held inside the subtree of the new target |
| BlockEdit.MoveEdgesOk | block.c:4597-4606 | redirecting all accepted edges at once creates no loop |
| BlockReplace.ReplaceKeepsInv | block.c:4557-4615 | replacing a node moves exactly the listed edges or changes nothing; the invariant holds afterwards if and only if no owned edge has lost the effect of `force_share` |
| BlockSafety.TrySetKeepsSafe | block.c:2324-2353 | a permission change leaves any two users of a node compatible and nothing staged, whatever it asks for |
| BlockSafety.RecheckKeepsSafe | block.c:2638-2654 | the same for the update of the node that lost a user, also when edges are looser than their owners need |
| BlockSafety.DetachKeepsSafe | block.c:2773-2782 | the same for removing an edge |
| BlockSafety.RootAttachKeepsSafe | block.c:2672-2733 | the same for attaching a user |
| BlockSafety.AttachChildKeepsSafe | block.c:2746-2771 | the same for attaching a child |
| BlockSafety.ReplaceKeepsSafe | block.c:4557-4615 | the same for a replacement, also one that loses `force_share` |
| BlockReplace.NecessarilyStillTight | block.c:4583-4610 | the condition of `ReplaceKeepsInv` is necessary |
| BlockForceShare.ForceShareLost | block.c:1949-1964 | a graph in which a replacement breaks the tightness of an edge |
| BlockForceShare.AssertionFails | block.c:2638-2649 | after that replacement, removing a user that tolerates everything makes the update of its node report tightening |
| BlockRuns.OpKeepsSafe | block.c:2204-2265 | every operation on the graph keeps users compatible, the graph acyclic and nothing staged |
| BlockRuns.UsersAlwaysCompatible | block.c:2204-2265 | after any sequence of operations, whatever they ask for and replace, the graph has no loops and any two users of a node are compatible |
| BlockRuns.OpKeepsInv | block.c:2324-2365 | an operation, called as the source calls it, keeps the whole invariant if and only if it is no granted replacement that loses `force_share` |
| BlockRuns.EdgesStayTight | block.c:2638-2654 | every edge is as tight as its owner needs in every state of a run if and only if no replacement in it loses `force_share` |
| BlockLayer.Layer.GetCumulativePerm | block.c:2140-2154 | the loop over the users computes their cumulative permissions |
| BlockLayer.Layer.CheckUsers | block.c:2220-2259 | the loop over the users finds a conflict if there is one, and else the new cumulative permissions |
| BlockLayer.Layer.CheckUpdatePerm | block.c:2204-2265 | the check in place is the check on values |
| BlockLayer.Layer.CheckPerm | block.c:1984-2083 | the same for a node |
| BlockLayer.Layer.CheckKids | block.c:2061-2079 | the same for the loop over the children |
| BlockLayer.Layer.ChildCheckPerm | block.c:2267-2297 | the same for one edge, with its backup |
| BlockLayer.Layer.AbortPermUpdate | block.c:2091-2107 | the abort in place is the abort on values |
| BlockLayer.Layer.ChildAbortPermUpdate | block.c:2313-2322 | the same for one edge |
| BlockLayer.Layer.SetPerm | block.c:2109-2138 | the update in place is the update on values |
| BlockLayer.Layer.ChildSetPerm | block.c:2299-2311 | the same for one edge |
| BlockLayer.Layer.TrySetPerm | block.c:2324-2353 | the permission change in place, with its hidden errors |
| BlockLayer.Layer.RefreshPerms | block.c:2355-2365 | the refresh in place |
| BlockLayer.Layer.LoosenOldNode | block.c:2638-2654 | the update of the node that lost a user |
| BlockLayer.Layer.DetachChild | block.c:2773-2782 | detaching in place |
| BlockLayer.Layer.RootAttachChild | block.c:2672-2733 | attaching in place, with both failure paths |
| BlockLayer.Layer.AttachChild | block.c:2746-2771 | attaching a child in place |
| BlockLayer.Layer.CollectUsers | block.c:4574-4587 | the list holds exactly the users that have to move, unless one of them is frozen |
| BlockLayer.Layer.MoveUsers | block.c:4597-4606 | the loop that redirects the collected edges |
| BlockLayer.Layer.ReplaceNode | block.c:4557-4615 | replacement in place; a frozen edge leaves everything unchanged |
| BlockAioMove.Contexts.CanSet | block.c:6531-6552 | the check accepts if and only if no user of a node that would have to move objects; it ends because the list of ignored edges grows |
| BlockAioMove.Contexts.ParentCanSet | block.c:6494-6517 | the same for one user |
| BlockAioMove.Contexts.ChildCanSet | block.c:6519-6527 | the same for one child |
| BlockAioMove.Contexts.JobCanSet | blockjob.c:133-146 | the same for the nodes of a job |
| BlockAioMove.Contexts.SetIgnore | block.c:6435-6492 | the move of a node and all that is reached from it |
| BlockAioMove.Contexts.SetParent | block.c:6456-6463 | the callback of a user; the assertion that there is one never fails |
| BlockAioMove.Contexts.JobSet | blockjob.c:148-164 | the nodes of a job move, then the job |
| BlockAioMove.Contexts.TrySet | block.c:6554-6573 | all or nothing: the connected nodes that are elsewhere all move and exactly their users are told, or nothing changes |
| BlockAioMove.Contexts.TrySetJob | blockjob.c:133-164 | the same for the nodes of a job that is to get one more, and the job itself |
| BlockAioMove.Contexts.ReconcileUser | block.c:2702-2727 | first the node is moved to its new user, else the user to the node; a failure changes nothing |
| BlockAio.DoneIsComponent | block.c:6435-6552 | a finished traversal has met exactly the connected nodes that have to move |
| BlockAgree.WholeComponent | block.c:6554-6573 | when connected nodes share a context, the whole component and nothing else moves |
| BlockAgree.AgreeIsUniform | block.c:6435-6463 | when the holder of every edge is in the context of its node, connected nodes share a context |
| BlockAgree.TrySetKeepsAgreement | block.c:6554-6573 | a move keeps the holder of every edge in the context of its node |
| BlockAgree.SetBackendKeepsAgreement | block/block-backend.c:2017-2048 | so does moving a block backend with its node |
| BlockAgree.MovesWholeComponent | block.c:6554-6573 | from such a state a move takes all the connected nodes and no other |
| BlockAgree.ReconcileAgrees | block.c:2702-2727 | afterwards the node and its new user are in one context, and so are the ends of all other edges |
| BlockContexts.DropKeepsFine | block.c:2638-2659 | detaching, with the attempt to move the node back to the main context |
| BlockContexts.AddRootKeepsFine | block.c:2672-2733 | attaching a user, with the reconciliation between the permission check and the update; users stay compatible and both ends of every edge in one context |
| BlockContexts.AddKidKeepsFine | block.c:2746-2771 | attaching a child, in the same way |
| BlockContexts.ChangeKeepsFine | block.c:4557-4615 | a replacement within a context, or a change of permissions |
| BlockContexts.AlwaysFine | block.c:2672-2733 | after any sequence of operations and moves, users are compatible and the holder of every edge is in the context of its node |
| BlockContexts.ConnectedShareContext | block.c:6435-6573 | connected nodes share a context in every state of every run |
| BlockContexts.ActIsOp | block.c:2672-2782 | what these operations do to graph and permissions is what the operations without contexts do, the argument being the outcome of the reconciliation |
| BlockRefs.LiveMeansUsed | block.c:6016-6033 | with balanced books a node is live if and only if an edge or an outside holder uses it, and its count is their number |
| BlockRanks.RanksIffAcyclic | block.c:6016-6033 | the ranks in the books exist if and only if no node is below itself |
| BlockRanks.MayMoveIff | block.c:4478-4555 | ranks that allow a replacement exist if and only if the new node leads to no owner of a moved edge |
| BlockRanks.ReplaceHasRank | block.c:4478-4555 | balanced books have a rank with which a replacement can be made if and only if the new node leads to no owner of a moved edge |
| BlockRefs.Nodes.Unref | block.c:6023-6033 | dropping a reference keeps the books balanced through the whole cascade of deletions and leaves everything above the node alone |
| BlockRefs.Nodes.Delete | block.c:4657-4671 | a deleted node has no users; its children lose one reference each |
| BlockRefs.Nodes.Close | block.c:4432-4434 | closing drops all the children |
| BlockRefs.Nodes.UnrefChild | block.c:2784-2792 | detaching hands the reference of the edge over to be dropped |
| BlockRefs.Nodes.AttachChild | block.c:2672-2733 | the caller's reference goes to the edge, or is dropped on failure |
| BlockRefs.Nodes.SetBackingHd | block.c:2873-2908 | references are conserved whether the link is frozen, refused, cleared or set, and the node itself survives |
| BlockRefs.Nodes.ReplaceNode | block.c:4557-4615 | references are conserved while users move; a refused replacement changes nothing |
| BlockRefs.Nodes.MoveUsers | block.c:4597-4606 | the loop takes one reference to the new node for each one it drops |
| BlockRefs.Nodes.Append | block.c:4633-4655 | the caller's reference to the new node is used up on success and on both failures |
| JobState.CompletionIsFinal | job.c:38-51 | in a history the table allows, completion is never undone |
| JobState.NullIsLast | job.c:38-51 | NULL comes last, after CONCLUDED or directly after CREATED |
| JobState.HoldKept | job.c:553-603 | every pause, resume, drain, error and cancellation keeps the pause account, and the assertions on the way hold |
| JobState.PauseRoundTrip | job.c:484-513 | a job that was paused at a pause point goes on with the status it had |
| JobState.FinalizeOk | job.c:681-711 | finalizing calls `commit` or `abort` by the result that counts, and `clean`, once each, and keeps to the table |
| JobTxn.RunKeepsOk | job.c:729-940 | the invariant holds in every state of every run |
| JobTxn.RunExtends | job.c:729-940 | every move that is enabled can be made: no assertion stands in its way |
| JobTxn.StepOk | job.c:729-940 | every step of commands, drivers and the event loop keeps the invariant of the transaction |
| JobTxn.StatusesAreLegal | job.c:179-192 | in every run all status changes of every job are allowed by the table, completion is never undone, and NULL follows CONCLUDED or CREATED |
| JobTxn.PausesAreCounted | job.c:553-603 | in every run `pause_count` is one for a job not started, one for a pause by the user and one for each open drained section, and an I/O error implies a pause by the user |
| JobTxn.AllOrNothing | job.c:729-776 | an abort by a job that failed or was cancelled aborts every member and nobody commits; without an abort nobody is aborted; in the remaining case the job that started it is the only one to commit |
| JobTxn.PreparedCommits | job.c:792-804 | when every `prepare` succeeds, every member commits and the list is empty |
| JobOutcome.FinalizeIsAtomicIff | job.c:778-804 | a failed finalization counts as started by a failed job if and only if the job it was asked of is the first that failed to prepare |
| JobOutcome.FinalOutcome | job.c:729-804 | in every run: when every `prepare` succeeds all members commit; otherwise, once the list is empty, all members have been aborted if and only if the job that was finalized is the first that failed to prepare, and else it alone has committed |
| JobOutcome.AbortStays | job.c:729-776 | which jobs are aborted, by whom and with what fate never changes once an abort has begun |
| JobOutcome.OneCommitsOneAborts | job.c:792-804 | a run from two new jobs to a state in which one has committed and one has been aborted |
| JobTxn.FirstFinalized | job.c:762-771 | during an abort the first member is finalized as its fate demands |
| JobTxn.ApplyCancelOk | job.c:926-940 | cancelling a job in any state keeps the invariant |
| JobTxn.ExitOk | job.c:856-900 | completing a job, successfully or not, keeps the invariant |
| JobLayer.Transaction.UserPause | job.c:570-581 | refused exactly when the verb is not accepted or the user has paused already |
| JobLayer.Transaction.UserResume | job.c:588-603 | refused exactly when the user has not paused or the verb is not accepted; resets the I/O status |
| JobLayer.Transaction.Start | job.c:914-924 | field by field; the pause of a new job ends |
| JobLayer.Transaction.DrainedBegin | blockjob.c:99-103 | a drained section pauses the job |
| JobLayer.Transaction.DrainedEnd | blockjob.c:127-131 | its end resumes it; the assertion holds |
| JobLayer.Transaction.Command | job.c:570-603 | these commands on a job of a transaction keep the invariant |
| JobLayer.Transaction.Drain | blockjob.c:99-131 | so do drained sections |
| JobLayer.Transaction.Step | job.c:429-545 | the steps of a job's coroutine keep the invariant |
| JobLayer.Transaction.CancelOthers | job.c:740-760 | the loop cancels every member but the one that started the abort |
| JobLayer.Transaction.ApplyPrepare | job.c:139-172 | the loop prepares up to the first failure |
| JobLayer.Transaction.ApplyPending | job.c:848-848 | the loop makes all members pending |
| JobLayer.Transaction.ApplyFinalize | job.c:139-172 | the loop finalizes every member as it leaves the list |
| JobLayer.Transaction.Finalize | job.c:792-804 | `job_do_finalize` in place |
| JobLayer.Transaction.TxnSuccess | job.c:830-854 | `job_completed_txn_success` in place |
| JobLayer.Transaction.Complete | job.c:856-867 | `job_completed` in place |
| JobLayer.Transaction.Exit | job.c:870-895 | `job_exit` in place, with the invariant |
| JobLayer.Transaction.Cancel | job.c:926-940 | `job_cancel` in place, with the invariant |
| JobLayer.Transaction.FinalizeFirst | job.c:762-771 | one round of the abort loop in place |
| ImgBytes.FindNonzero | qemu-img.c:1168-1182 | the first sector boundary whose sector is not zero, or -1 if and only if all is zero |
| ImgBytes.CompareBuffers | qemu-img.c:1283-1303 | the longest prefix of sectors that all differ or all agree |
| ImgCompare.CheckEmptySectors | qemu-img.c:1322-1343 | zero, the first sector that is not, or a read error |
| ImgCompare.CompareChunk | qemu-img.c:1506-1586 | one round of the first loop: its verdict is right for the whole comparison; strict mode compares the flags and not the lengths of the runs |
| ImgCompare.CompareTail | qemu-img.c:1601-1622 | one round of the second loop |
| ImgCompare.Compare | qemu-img.c:1494-1626 | without errors the exit code is 0 exactly when the images agree with the shorter one padded by zeros, and in strict mode exactly when also the sizes and the flags at the start of every chunk are equal; a mismatch is reported at the sector of the first difference, or at the first chunk with different flags |
| ImgCompare.ReportedSector | qemu-img.c:1563-1569 | the reported offset starts a sector of the image exactly when the chunk does, and always for whole-sector runs |
| ImgCompare.UnalignedReport | qemu-img.c:1563-1569 | two images for which 1 is the only offset the comparison can report |
| ImgSparse.IsAllocatedSectors | qemu-img.c:1194-1230 | what is reported as zero is zero, the end is aligned or the end of the buffer, and the run is stretched by less than an alignment |
| ImgSparse.DocumentedAnswer | qemu-img.c:1184-1193 | exactly when the answer differs from the documented one |
| ImgSparse.IsAllocatedSectorsMin | qemu-img.c:1237-1274 | data is followed by a zero run of at least the threshold or up to the end |
| ImgConvert.SelectPart | qemu-img.c:1700-1710 | the source that holds a sector, also with empty sources |
| ImgConvert.StatusClassified | qemu-img.c:1736-1795 | a status that is true of its bytes and ends with a sector is classified truthfully, with and without a backing file |
| ImgRounding.ZerosRoundIff | qemu-img.c:1775-1775 | a run of zero bytes covers only zero sectors, whatever they hold, if and only if its length is a multiple of a sector |
| ImgRounding.EqualsRoundIff | qemu-img.c:1775-1775 | the same for bytes that equal the backing file |
| ImgConvert.ClassifiedIff | qemu-img.c:1775-1795 | statuses of a given length are always classified truthfully if and only if it is a multiple of a sector |
| ImgConvert.PartialRun | qemu-img.c:1775-1775 | for every other length, a source and a status that is true of the bytes and misclassified |
| ImgConvert.Converter.IterationSectors | qemu-img.c:1712-1816 | at least one sector, at most a buffer of data, with a classification that is true of the whole range |
| ImgConvert.Converter.CoRead | qemu-img.c:1818-1869 | the sectors of the sources, also across them |
| ImgConvert.Converter.CoWrite | qemu-img.c:1872-1934 | afterwards the target shows the source in the range and is unchanged elsewhere |
| ImgConvert.Converter.CoCopyRange | qemu-img.c:1936-1965 | an offloaded copy, complete or cut short |
| ImgConvert.Converter.ClaimNext | qemu-img.c:1991-2011 | the range claimed under the lock is not empty, stays within the sources and is classified truthfully, and the cached status stays true |
| ImgConvert.Converter.CopyClaim | qemu-img.c:2019-2056 | a claimed range ends up copied also when the offloaded copy fails half way |
| ImgConvert.Converter.DoCopy | qemu-img.c:2107-2131 | both passes, with one coroutine |
| ImgConvert.ConvertDoCopy | qemu-img.c:2086-2143 | success means that the target shows the concatenated sources and is otherwise unchanged, for every setting; without I/O errors only an invalid cluster size can fail |
| ImgConvertCo.WriteIsCopy | qemu-img.c:1872-1934 | a write that leaves out zeros and backing data shows the source all the same |
| ImgConvertCo.CopyIsComplete | qemu-img.c:1985-2083 | in every interleaving of sparse writes claims are disjoint, no sector shows anything but its old or new content, and reported success means a complete copy |
| ImgConvertCo.WritesAscend | qemu-img.c:2033-2061 | in-order writes go to the claim at `wr_offs`, which only moves up, and everything before it has arrived |
| ImgConvertCo.SomebodyWrites | qemu-img.c:2033-2075 | whenever a coroutine waits, another live one that does not wait holds the range at `wr_offs` |
| ImgConvertCo.NoStuckWaiter | qemu-img.c:2033-2075 | also after an error a waiting coroutine has a running one before it that will enter its successor |
| ImgConvertCo.StepKeepsInv | qemu-img.c:1985-2083 | every step of every coroutine keeps the invariant |
| ImgRebase.WriteKeepsView | qemu-img.c:3810-3824 | writing what the overlay shows leaves what it shows unchanged, cluster fill included |
| ImgRebase.Overlay.CopyDifferences | qemu-img.c:3804-3827 | the inner loop detaches the sectors in which the backing files differ |
| ImgRebase.Overlay.RebaseChunk | qemu-img.c:3736-3829 | one round, with allocated, unchanged and short cases |
| ImgRebase.Overlay.Rebase | qemu-img.c:3686-3830 | the view through the old backing file never changes, also on an error; at the end the view through the new one is the same |

## Left out

- CpuRuns.NoDeadlock: safety only; that every thread is eventually scheduled is not modelled.
- Weak memory in the exclusive-section protocol: memory is sequentially consistent, as the barriers of the code intend.
- The work queue of the vCPU threads, CPU hot-plug and `async_safe_run_on_cpu`: queue plumbing around the protocol.
- Reopening images and cache invalidation: option dictionaries and driver callbacks.
- Drivers with their own permission check: their answer is an argument, and they have no children.
- Drained sections inside `bdrv_replace_child_noperm`: they only count quiescence.
- BlockChange.RootAttachKeepsInv: the outcome of reconciling the AioContexts is an argument here; `BlockContexts.AddRootKeepsFine` has the reconciliation itself.
- BlockChange.AttachChildKeepsInv: the same, with `BlockContexts.AddKidKeepsFine`.
- BlockSafety.RootAttachKeepsSafe: the same, with `BlockContexts.AddRootKeepsFine`.
- BlockSafety.AttachChildKeepsSafe: the same, with `BlockContexts.AddKidKeepsFine`.
- BlockLayer.Layer.RootAttachChild: the same; in place the reconciliation is `BlockAioMove.Contexts.ReconcileUser`.
- BlockLayer.Layer.AttachChild: the same.
- BlockRefs.Nodes.AttachChild: whether the permissions are granted is an argument.
- BlockRefs.Nodes.Append: the results of the permission and frozen-chain checks are arguments.
- BlockRefs.Nodes.SetBackingHd: the results of the permission and frozen-chain checks are arguments, and `inherits_from` is not modelled.
- Acquiring AioContext locks, and draining while nodes move: order of locks only.
- JobTxn.AllOrNothing: liveness of an abort (`job_finish_sync`) is not claimed; a member that was never started would keep it waiting.
- Job drivers that clear `cancelled` while their transaction is being aborted: block/mirror.c does it for a job of its own, which is modelled only outside an abort.
- Job reference counts, timers, events and progress.
- ImgConvert.StatusClassified: not for a zero or backing status that ends inside a sector, for which `ImgConvert.ClassifiedIff` shows that it fails.
- ImgConvert.Converter.IterationSectors: the same.
- ImgConvert.Converter.ClaimNext: the same.
- ImgConvert.ConvertDoCopy: the same; and no salvage mode, where unreadable sectors become zeros by design.
- ImgConvert.Converter.DoCopy: one coroutine; several are `ImgConvertCo`, where the classification of a range is an argument that is true of it.
- JobLayer.Transaction.Step: the steps of a driver's coroutine, as one update each.
- ImgCompare.Compare and ImgRebase.Overlay.Rebase: block status and allocation queries are arguments that answer truthfully and for at least one byte.
- Opening images, command lines, progress output, dirty bitmaps and JSON output of `qemu-img`.
- GDB command handlers, sockets, signals and run control.
