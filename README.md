# MINIX 3 kernel, process manager and APUE cores in Dafny

This project models the core of the MINIX 3.1.0 kernel as annotated in
`appendixB/`, the process manager's memory and process bookkeeping, and three
small cores from *Advanced Programming in the UNIX Environment*.

- Kernel: the message-passing engine and scheduler of `kernel/proc.c` (sys_call,
  mini_send, mini_receive, mini_notify, lock_notify, enqueue, dequeue, sched,
  pick_proc), the constants and macros of its headers, the boot image of
  `kernel/table.c`, main's table set-up and boot loop and prepare_shutdown
  (`kernel/main.c`), the clock task's timers and accounting (`kernel/clock.c`),
  the system task's dispatch, initialize, get_priv, get_randomness, send_sig,
  cause_sig, umap_local, umap_remote, umap_bios and virtual_copy
  (`kernel/system.c`), the interrupt hooks of `kernel/i8259.c`, the descriptors
  of `kernel/protect.c` and the boot parameters of `kernel/start.c`.
- Kernel calls: do_exit, do_fork, do_trace, do_irqctl, do_getksig, do_kill,
  do_setalarm, do_segctl, do_copy, do_vcopy and do_umap.
- Process manager: the hole list of `servers/pm/alloc.c`, the break of
  `servers/pm/break.c`, and fork, exit and waitpid of `servers/pm/forkexit.c`.
- APUE: the database library's record formats, chains and operations
  (`apue/db.c`), the client table (`apue/17-27.c`) and the argument tokenizer
  (`apue/17.4.c`).

Where the code differs from what it evidently intends, the table under
"## Findings" names both the member that models the code as written and the
corrected member the rest of the model uses.

## Model

| member | source | states |
|---|---|---|
| KConst.RtsFlagsAreDistinctBits | appendixB/kernel/proc.h:70-84 | the eight runtime flags are distinct single bits |
| KConst.QueueOrdering | appendixB/kernel/proc.h:92-98 | NR_SCHED_QUEUES is IDLE_Q + 1 and TASK_Q = MAX_USER_Q < USER_Q < MIN_USER_Q < IDLE_Q |
| KConst.IsOkProcN | appendixB/kernel/proc.h:119 | the unsigned-wrap comparison accepts exactly -NR_TASKS <= n < NR_PROCS |
| KConst.KernelUserPartition | appendixB/kernel/proc.h:125-128 | every process number is a kernel task or a user process, never both |
| KConst.IsEmptyP | appendixB/kernel/proc.h:121 | a slot is empty only when its flags are SLOT_FREE and nothing else |
| KConst.ProcSlotRoundTrip | appendixB/kernel/proc.h:113-116 | proc_addr and proc_nr are inverse on initialised slots |
| KConst.PrivFlagsAreDistinctBits | appendixB/kernel/priv.h:58-62 | PREEMPTIBLE, BILLABLE, SYS_PROC and SENDREC_BUSY are distinct bits |
| KConst.StackGuard | appendixB/kernel/priv.h:55 | the guard word is 0xBEEF for a 2-byte reg_t and 0xDEADBEEF otherwise |
| KConst.BootProcsFitPrivTable | appendixB/kernel/priv.h:106-107 | NR_BOOT_PROCS <= NR_SYS_PROCS |
| KConst.SNrToId | appendixB/kernel/const.h:26 | s_nr_to_id never yields USER_PRIV_ID and is inverted by subtracting NR_TASKS + 1 |
| KConst.SetPsw | appendixB/kernel/const.h:68-69 | SETPSW takes the bits in 0xCD5 from the new value and keeps every other bit |
| KConst.SetPswKeepsTraceBit | appendixB/kernel/const.h:67-69 | SETPSW cannot change TRACEBIT |
| KConst.CallFieldsPartitionLowByte | appendixB/kernel/ipc.h:10-12 | function and flag fields are disjoint and make up the low byte; NON_BLOCKING is a flag bit |
| KConst.SendrecIsSendAndReceive | appendixB/kernel/ipc.h:23-27 | SENDREC == SEND \| RECEIVE |
| KConst.CheckPtrSelects | appendixB/kernel/ipc.h:35 | CHECK_PTR selects every known call except NOTIFY |
| KConst.CheckDstSelects | appendixB/kernel/ipc.h:37 | CHECK_DST selects SEND, SENDREC and NOTIFY only |
| KConst.CheckSrcSelects | appendixB/kernel/ipc.h:38 | CHECK_SRC selects RECEIVE and SENDREC only |
| KConst.SlotFreeIsNotEnough | appendixB/kernel/proc.h:121 | a slot that has SLOT_FREE and another flag is not empty |
| Bitmap.BitmapChunks | appendixB/kernel/const.h:46 | BITMAP_CHUNKS(n) is n / BITCHUNK_BITS rounded up |
| Bitmap.SysChunksHoldEverySysProc | appendixB/kernel/const.h:61 | NR_SYS_CHUNKS chunks hold a bit for every system process |
| Bitmap.PlacementIsOneToOne | appendixB/kernel/const.h:47-49 | bit b lives in chunk b / 16 at offset b % 16, one-to-one |
| Bitmap.SetBit | appendixB/kernel/const.h:57-58 | after set_sys_bit the bit is set and no other bit changed |
| Bitmap.UnsetBit | appendixB/kernel/const.h:59-60 | after unset_sys_bit the bit is clear and no other bit changed |
| Bitmap.SetBitIsInsert | appendixB/kernel/const.h:57-58 | setting a bit inserts it into the set of members |
| Bitmap.UnsetBitIsRemove | appendixB/kernel/const.h:59-60 | unsetting a bit removes it from the set of members |
| Bitmap.SetBitIdempotent | appendixB/kernel/const.h:57-58 | setting a bit twice equals setting it once |
| Bitmap.ChunkOffset | appendixB/kernel/const.h:49 | the offset of a bit inside its chunk is below BITCHUNK_BITS |
| Bitmap.ShiftCountInjective | appendixB/kernel/const.h:50-52 | different offsets inside a chunk shift 1 to different bits |
| Bitmap.OrSets | appendixB/kernel/const.h:51 | or-ing in a bit sets it |
| Bitmap.OrKeepsOthers | appendixB/kernel/const.h:51 | or-ing in a bit leaves every other bit of the chunk as it was |
| Bitmap.ChunkHasAndNot | appendixB/kernel/const.h:52 | and-ing with the complement clears that bit and keeps every other bit of the chunk |
| Bitmap.SetBitAt | appendixB/kernel/const.h:51 | after SET_BIT a bit is set exactly when it is the bit set or was set before |
| Bitmap.UnsetBitAt | appendixB/kernel/const.h:52 | after UNSET_BIT a bit is set exactly when it is another bit that was set before |
| Bitmap.Members | appendixB/kernel/const.h:50 | the members of a map are exactly the bits GET_BIT finds set |
| Bitmap.EmptyMap | appendixB/kernel/main.c:71-85 | a zeroed map of n chunks has no members |
| Bitmap.FirstChunkMap | appendixB/kernel/main.c:127 | a map whose first chunk is c and the rest zero holds exactly the bits of c, all in the first chunk |
| BootTable.ImageSizeChecks | appendixB/kernel/table.c:326-328 | the image has NR_BOOT_PROCS entries and one chunk holds every boot process's send bit |
| BootTable.KernelTasksFirst | appendixB/kernel/table.c:147-195 | the first NR_TASKS entries are the kernel tasks, in order |
| BootTable.OnlyIdleAtIdleQueue | appendixB/kernel/table.c:147-292 | only IDLE sits at IDLE_Q, with flags SYS_PROC \| PREEMPTIBLE \| BILLABLE |
| BootTable.TasksAreNotPreemptible | appendixB/kernel/table.c:160-195 | CLOCK, SYSTEM and HARDWARE are neither preemptible nor billable and sit at TASK_Q |
| BootTable.TrapMasks | appendixB/kernel/table.c:88-90 | TSK_T permits only RECEIVE, USR_T only SENDREC and ECHO, SRV_T every trap |
| BootTable.SendMasks | appendixB/kernel/table.c:105-109 | USR_M reaches only PM, FS and RS; DRV_M adds SYSTEM, CLOCK, LOG and TTY |
| BootTable.CallMasks | appendixB/kernel/table.c:122-131 | PM_C grants every kernel call but the device-I/O, IRQ and BIOS calls; RS_C grants all |
| BootTable.StackSpace | appendixB/kernel/table.c:62-73 | the task stack space is IDLE's, HARDWARE's (none), CLOCK's and SYSTEM's |
| BootTable.CallBitIsShift | appendixB/kernel/table.c:122 | the call-mask bit of call n is 1 shifted left by n |
| Protect.BaseRoundTrip | appendixB/kernel/protect.c:300-343 | seg2phys reassembles exactly the base sdesc split into 16/8/8 bits |
| Protect.LimitEncoding | appendixB/kernel/protect.c:305-317 | the limit is size - 1; byte granularity when it fits 20 bits, else pages with G; D/B always set |
| Protect.ZeroSizeIsFourGiB | appendixB/kernel/protect.c:305 | size 0 gives a 4 GiB segment |
| Protect.WholePagesAreExact | appendixB/kernel/protect.c:305-317 | a whole number of pages is described exactly |
| Protect.CodeAccess | appendixB/kernel/protect.c:269-271 | code access byte: present, code, executable, readable, DPL = privilege |
| Protect.DataAccess | appendixB/kernel/protect.c:286 | data access byte: present, data, writeable, not executable, DPL = privilege |
| Protect.InitCodeSeg | appendixB/kernel/protect.c:259-272 | the code descriptor has the given base and code access |
| Protect.InitDataSeg | appendixB/kernel/protect.c:278-287 | the data descriptor has the given base and data access |
| Protect.Seg2Phys | appendixB/kernel/protect.c:323-344 | real mode base is seg * 16; protected mode reads the base of GDT entry seg >> 3 |
| Protect.Seg2PhysRoundTrip | appendixB/kernel/protect.c:323-343 | a selector for a GDT entry built by init_codeseg/init_dataseg yields the base back |
| Protect.SelectorFields | appendixB/kernel/protect.c:448-453 | a selector decodes to its index, table indicator and RPL |
| Protect.IntGate | appendixB/kernel/protect.c:372-383 | the gate holds the offset split into two 16-bit halves and CS_SELECTOR |
| Protect.SetIntGate | appendixB/kernel/protect.c:379-383 | int_gate writes only IDT entry vec_nr |
| Protect.SegPrivilege | appendixB/kernel/protect.c:438 | TASK_PRIVILEGE exactly for kernel processes |
| Protect.AllocSegments | appendixB/kernel/protect.c:428-453 | descriptors with the click bases, the top of the stack segment as data limit, the code limit equal to it without separate text and the text length in bytes with it, and LDT selectors |
| Protect.AllocSegmentsReal | appendixB/kernel/protect.c:454-460 | real-mode segment registers hold the text and data bases in 16-byte units |
| Protect.LdtDesc | appendixB/kernel/protect.c:380-383 | a process's LDT descriptor has its base, limit 39 and access PRESENT \| LDT |
| Protect.InitLdtDescriptors | appendixB/kernel/protect.c:378-385 | slot i gets GDT entry FIRST_LDT_INDEX + i and selector (FIRST_LDT_INDEX + i) * 8; the earlier GDT entries are untouched |
| Protect.LdtSelectorsSelectOwnLdt | appendixB/kernel/protect.c:380-384 | each slot's selector leads seg2phys to the base of its own LDT |
| Protect.ByteGranular | appendixB/kernel/protect.c:305-317 | a limit that fits 20 bits is stored with byte granularity and is exactly size - 1 |
| Protect.PageGranular | appendixB/kernel/protect.c:305-317 | a larger limit is stored in 4 KiB pages with G set, rounded up to the end of its page |
| Protect.SegSelectors | appendixB/kernel/protect.c:448-453 | cs selects the LDT code entry and ds, es, ss, fs and gs the LDT data entry, at the process's privilege; both fit 16 bits |
| Protect.ClickBytes | appendixB/kernel/protect.c:429-436 | a click count shifted to bytes is a whole number of pages |
| Start.GetValue | appendixB/kernel/start.c:127-148 | get_value returns the position FindFrom specifies |
| Start.CompareKey | appendixB/kernel/start.c:141-143 | the key matches exactly when all of name is consumed and '=' follows |
| Start.SkipEntry | appendixB/kernel/start.c:144-145 | the scan moves just past the entry's NUL |
| Start.GetValueIsLookup | appendixB/kernel/start.c:140-147 | over a monitor-written buffer get_value finds the first entry `name=value`, else NIL_PTR |
| Start.LookupFirst | appendixB/kernel/start.c:140-147 | the lookup returns the first entry with the key, and none means no entry has it |
| Start.ParamsSize | appendixB/kernel/start.c:78 | params_size is parmsize cut to sizeof(params) - 2 |
| Start.Cstart | appendixB/kernel/start.c:103-116 | no bus or "at" gives PC-AT, "mca" PC-AT and MCA; "vga" sets VGA and EGA, "ega" EGA only, no video neither |
| KState.RtsBit | appendixB/kernel/proc.h:70-84 | each runtime flag is one of the eight p_rts_flags bits |
| KState.RtsBitOneToOne | appendixB/kernel/proc.h:70-84 | different runtime flags have different bits, so the flag word is a set of flags |
| KState.PFlagBit | appendixB/kernel/priv.h:58-62 | each privilege flag is one of PREEMPTIBLE, BILLABLE, SYS_PROC and SENDREC_BUSY |
| KState.PFlagBitOneToOne | appendixB/kernel/priv.h:58-62 | different privilege flags have different bits |
| KState.RunnableOnOneReadyQueue | appendixB/kernel/proc.c:547-643 | under the queue invariant a process is runnable exactly when it is on a ready queue, and then only on the queue of its priority |
| KState.SendingOnOneCallerQueue | appendixB/kernel/proc.c:324-337 | a process is SENDING exactly when it is on a caller queue, and then only on the queue of its p_sendto |
| KQueues.Clamp | appendixB/kernel/proc.c:701-707 | a penalised priority stays within [p_max_priority, IDLE_Q - 1] and is the raw value when that is inside |
| KQueues.Sched | appendixB/kernel/proc.c:652-720 | ticks left: front of its own queue, nothing else changes; no ticks: a new quantum, the process becomes prev_ptr, and a non-kernel process moves one queue down if it was prev_ptr already, else one up, clamped |
| KQueues.SchedPenalisesRepeats | appendixB/kernel/proc.c:681-707 | a non-kernel process out of ticks that was prev_ptr sinks one queue (while below IDLE_Q - 1); otherwise it rises one queue unless already at its maximum priority |
| KQueues.SendFrame | appendixB/kernel/proc.c:555-571 | changing the ready links, or fields that do not concern sending, keeps the caller queues and the send-chain rank valid |
| KQueues.ExemptNotQueued | appendixB/kernel/proc.c:594-643 | the process between queues (just dequeued or about to be enqueued) is on no ready queue |
| KQueues.QueuedOnce | appendixB/kernel/proc.c:547-643 | a slot on one ready queue is on no other |
| KQueues.MembersInsert | appendixB/kernel/proc.c:555-571 | after enqueue, queue q holds x as well; every other queue is unchanged |
| KQueues.MembersRemove | appendixB/kernel/proc.c:624-642 | after dequeue, the process taken off is the exempt slot, every queue is as before without it, and the removed process was runnable at priority q |
| KQueues.ListsInsert | appendixB/kernel/proc.c:555-571 | linking x into the queue of its priority gives the lists the membership Inserted describes (front or back, empty queue included) |
| KQueues.ListsRemove | appendixB/kernel/proc.c:624-634 | unlinking position k of queue q gives queue q without that position, the others unchanged |
| KQueues.LinkedOk | appendixB/kernel/proc.c:547-574 | linking a runnable process that is on no queue into the queue of its priority restores the queue invariant |
| KQueues.UnlinkedOk | appendixB/kernel/proc.c:594-643 | unlinking a queued process keeps the invariant with that process as the exempt slot |
| KQueues.NotQueuedNotRunnable | appendixB/kernel/proc.c:624-642 | a process not on the queue of its priority is not runnable |
| KQueues.PointersMove | appendixB/kernel/proc.c:748-755 | moving proc_ptr, next_ptr or bill_ptr keeps the queue invariant |
| KQueues.LowestFrom | appendixB/kernel/proc.c:748-755 | an empty queue q can be skipped: the lowest non-empty queue from q is the one from q + 1 |
| KQueues.LowestKeeps | appendixB/kernel/proc.c:633-634 | removing a slot that is not the head of the lowest non-empty queue leaves pick_proc's answer unchanged |
| KQueues.LowestAfterInsert | appendixB/kernel/proc.c:555-573 | after enqueue some queue is non-empty, so pick_proc finds a process |
| KQueues.LowestSome | appendixB/kernel/proc.c:748-755 | a non-empty queue at or above the start gives pick_proc an answer |
| Links.ListUnique | appendixB/kernel/proc.c:627 | the link array and the head determine the list |
| Links.ListTail | appendixB/kernel/proc.c:627 | a list without its first slot is the list from that slot's successor |
| Links.ListFrame | appendixB/kernel/proc.c:334-337 | changing the link of a slot that is not on a list leaves the list unchanged |
| Links.ListPush | appendixB/kernel/proc.c:563-565 | linking a slot before the head makes it the new first slot |
| Links.ListAppend | appendixB/kernel/proc.c:557-571 | linking a slot after the last one (or as the only one) appends it |
| Links.ListPop | appendixB/kernel/proc.c:630 | replacing the head by its successor takes the first slot off |
| Links.ListUnlink | appendixB/kernel/proc.c:630 | linking position p's predecessor to p's successor takes p off the list |
| Links.ListInsertAfter | appendixB/servers/pm/alloc.c:154-155 | linking x between position p and its successor inserts x after p |
| Links.ListBound | appendixB/kernel/proc.c:627 | a list of distinct slots of an n-slot table has at most n elements |
| KIpc.ReachesRankFree | appendixB/kernel/proc.c:303-307 | whether the walk reaches c does not depend on which fitting rank is used |
| KIpc.ReachesLowers | appendixB/kernel/proc.c:303-307 | every process the walk reaches has a lower rank than where it started |
| KIpc.SendChainsAcyclic | appendixB/kernel/proc.c:303-307 | with a fitting rank no SENDING chain leads back to its start, so the deadlock walk ends |
| KIpc.ReachesStep | appendixB/kernel/proc.c:304-306 | from a SENDING x, c is reached iff it is x's destination or is reached from there |
| KIpc.SelfSendCycle | appendixB/kernel/proc.c:303-307 | a process sending to itself passes the deadlock test as written and then blocks SENDING to itself, a state with no rank |
| KIpc.RankAfterBlock | appendixB/kernel/proc.c:324-337 | when d does not lead back to c, blocking c on d keeps the send chains acyclic |
| KIpc.CallerQueuedOnce | appendixB/kernel/proc.c:334-337 | a slot on one caller queue is on no other, and a process that is not SENDING is on none |
| KIpc.CallersApart | appendixB/kernel/proc.c:334-337 | the last slot of a caller queue is on no other caller queue |
| KIpc.CallersAppend | appendixB/kernel/proc.c:334-337 | walking to the end of d's caller queue and linking c there appends c |
| KIpc.MembersAppendCaller | appendixB/kernel/proc.c:327-337 | after c blocks sending to d, c is at the end of d's caller queue; other caller queues are unchanged |
| KIpc.MembersBlock | appendixB/kernel/proc.c:425-430 | a process that stops being runnable without sending leaves the ready queues and no caller queue changes |
| KIpc.MembersRetag | appendixB/kernel/proc.c:323 | a blocked process whose flags change needs a queue only once none is left, and is then the exempt slot |
| KIpc.BlockSendOk | appendixB/kernel/proc.c:324-337 | the dequeued caller, now SENDING to d at the end of d's caller queue, keeps the caller-queue and rank parts of the invariant |
| KIpc.CallerQueueOf | appendixB/kernel/proc.c:409-419 | the invariant gives a receiver's caller queue as a list of slots that all send to it |
| KIpc.BlockSendInv | appendixB/kernel/proc.c:324-337 | BlockSendOk for the whole invariant, next_ptr untouched and c on no ready queue |
| KIpc.CallersRemove | appendixB/kernel/proc.c:409-415 | unlinking position k of c's caller queue removes that sender and nothing else |
| KIpc.MembersReleaseCaller | appendixB/kernel/proc.c:413-415 | the released sender leaves c's caller queue and is no longer SENDING |
| KIpc.ReleaseOk | appendixB/kernel/proc.c:409-416 | mini_receive's taking of a sender keeps the invariant; a sender left runnable is the slot enqueue will insert |
| KIpc.ReleaseInv | appendixB/kernel/proc.c:409-416 | ReleaseOk for the whole invariant, the ready queues and next_ptr untouched |
| KIpc.ShapeUpdate | appendixB/kernel/proc.h:113-116 | replacing one entry by a well-formed one keeps the table's shape |
| KIpc.ReadyListsFrame | appendixB/kernel/proc.c:555-571 | the ready lists depend only on p_nextready and the head and tail pointers |
| KIpc.RetagOk | appendixB/kernel/proc.c:323 | new flags for a blocked process that keep SENDING and p_sendto keep the invariant |
| KIpc.BlockedOk | appendixB/kernel/proc.c:428-429 | a process taken off the ready queues that gains a flag other than SENDING keeps the invariant |
| KIpc.RetagInv | appendixB/kernel/proc.c:323 | RetagOk for the whole invariant |
| KIpc.BlockedInv | appendixB/kernel/proc.c:428-429 | BlockedOk for the whole invariant |
| KIpc.PrivUpdateOk | appendixB/kernel/proc.c:495 | replacing a privilege record by a well-formed one keeps the queue invariant |
| KIpc.PrivUpdateInv | appendixB/kernel/proc.c:495 | PrivUpdateOk for the whole invariant |
| KIpc.FieldsOk | appendixB/kernel/proc.c:319-320 | changing fields of an entry no queue depends on keeps the queue invariant |
| KIpc.FieldsInv | appendixB/kernel/proc.c:319-320 | FieldsOk for the whole invariant |
| KIpc.Stamped | appendixB/kernel/proc.c:319-320 | the copied message carries the sender's process number as m_source |
| KIpc.BuildMess | appendixB/kernel/proc.c:402-403 | a notification from src stamped with the uptime; HARDWARE's carries the pending interrupts and SYSTEM's the pending signals, which the record then no longer holds |
| KIpc.NotifiedBy | appendixB/kernel/proc.c:460-496 | mini_notify changes only the destination's entry: its message, RECEIVING, quantum and priority |
| KIpc.DequeuedUnqueued | appendixB/kernel/proc.c:594-643 | when a runnable process is dequeued, the scheduler state after it is exactly Unqueued: its priority queue without it, next_ptr picked again by pick_proc and bill_ptr with it when it was proc_ptr or next_ptr, everything else as before |
| KIpc.SendVerdict | appendixB/kernel/proc.c:303-341 | mini_send answers OK, ELOCKED or ENOTREADY, and ENOTREADY only under NON_BLOCKING when d does not wait for c and there is no deadlock |
| KIpc.FirstCaller | appendixB/kernel/proc.c:409-419 | the first position of the caller queue whose process the receive accepts |
| KIpc.ReceivePick | appendixB/kernel/proc.c:379-433 | nothing while the caller is SENDING; else a pending notification (outside a SENDREC), else the first acceptable caller, else block or ENOTREADY |
| KIpc.PendingNotifyPicked | appendixB/kernel/proc.c:383-404 | a pending notification is not lost: a later acceptable receive picks it or one with a lower id |
| KIpc.Owners | appendixB/kernel/proc.c:394 | id_to_nr: the process owning each privilege id |
| KIpc.FirstNotify | appendixB/kernel/proc.c:385-404 | the lowest pending id whose owner the receive accepts |
| KIpc.ChunkLow | appendixB/kernel/proc.c:391-392 | the lowest pending id of one bit chunk |
| KIpc.ChunkScan | appendixB/kernel/proc.c:386-399 | the scan as written delivers only a pending id whose owner the receive accepts |
| KIpc.BootOwners | appendixB/kernel/table.c:147-195 | in the boot table privilege id i belongs to process i - NR_TASKS - 1 |
| KIpc.ChunkScanMissesPending | appendixB/kernel/proc.c:386-399 | with CLOCK and SYSTEM pending, a receive from SYSTEM finds nothing as written although SYSTEM's notification is pending |
| KIpc.FirstNotifyNoLater | appendixB/kernel/proc.c:386-404 | whatever the scan as written delivers, the corrected scan delivers too or finds a lower acceptable id |
| KIpc.AnyDestinationLeavesTable | appendixB/kernel/proc.c:165-224 | the check as written lets a SEND or NOTIFY to ANY through, and the IPC mask test then indexes far outside the table |
| KIpc.CheckedDestinationInTable | appendixB/kernel/proc.c:165-224 | under the corrected check every call that names a destination names a slot of the table |
| KIpc.MessPtrOkMeans | appendixB/kernel/proc.c:181-197 | the pointer check accepts exactly the messages lying wholly from the data segment's start to the stack's end, without wrapping |
| KIpc.DivBelow | appendixB/kernel/proc.c:183-185 | a click index is below n exactly when the byte address is below n clicks |
| KIpc.DivAbove | appendixB/kernel/proc.c:183-185 | n is at most the click index exactly when n clicks are at most the byte address |
| KIpc.Screen | appendixB/kernel/proc.c:153-224 | the first refusing check in sys_call's order: trap mask or kernel target (ECALLDENIED), source or destination (EBADSRCDST), pointer (EFAULT), IPC mask (ECALLDENIED), dead destination (EDEADDST) |
| KProc.Kernel.PickProc | appendixB/kernel/proc.c:725-756 | next_ptr becomes the head of the highest-priority non-empty queue, bill_ptr too when it is billable; with all queues empty nothing changes |
| KProc.Kernel.Enqueue | appendixB/kernel/proc.c:547-574 | the process is inserted in the queue Sched chooses, at the front or the end as Sched says, its entry (quantum, priority) and prev_ptr are Sched's, next_ptr becomes the head of the highest-priority non-empty queue and bill_ptr follows it when it is billable; nothing else changes (Enqueued) |
| KProc.Kernel.LinkReady | appendixB/kernel/proc.c:555-571 | x goes on the queue of its priority at the front or back, with the empty-queue case |
| KProc.Kernel.Dequeue | appendixB/kernel/proc.c:594-643 | a runnable process leaves the queue of its priority and every other queue keeps its order; when it was proc_ptr or next_ptr and a queue is left non-empty pick_proc sets next_ptr, and bill_ptr when billable; otherwise next_ptr and bill_ptr stay; a process that is not runnable changes nothing (Dequeued) |
| KProc.Kernel.FindReady | appendixB/kernel/proc.c:627-641 | the search finds x's position on queue q and its predecessor, or reports it absent |
| KProc.Kernel.UnlinkReady | appendixB/kernel/proc.c:630-634 | position k is unlinked and rdy_tail moves back when it named x |
| KProc.Kernel.Deadlocked | appendixB/kernel/proc.c:303-307 | the walk answers ELOCKED exactly when the SENDING chain from d reaches c |
| KProc.Kernel.Wake | appendixB/kernel/proc.c:319-323 | d gets the message and loses RECEIVING; only its entry changes; with no flag left it is enqueued as sched places it (Readied: its quantum, priority, queue and end, prev_ptr, then next_ptr the head of the highest non-empty queue and bill_ptr with it when billable), otherwise the ready queues and pointers stay |
| KProc.Kernel.SetProc | appendixB/kernel/proc.c:319-330 | slot y's entry becomes p and nothing else changes |
| KProc.Kernel.SetTimes | appendixB/kernel/clock.c:286-296 | slot y's user time, system time and ticks left become the given values |
| KProc.Kernel.SetFields | appendixB/kernel/proc.c:319-330 | slot y's entry becomes p, which differs only in fields no queue depends on |
| KProc.Kernel.LastCaller | appendixB/kernel/proc.c:334-335 | the walk ends at the last slot of d's caller queue, or reports it empty |
| KProc.Kernel.AppendCaller | appendixB/kernel/proc.c:334-337 | c becomes the last entry of d's caller queue |
| KProc.Kernel.MiniSend | appendixB/kernel/proc.c:282-342 | the result is SendVerdict's; on an error nothing changes; on delivery d gets the stamped message and loses RECEIVING, no other field of d and no other entry changes, and with no flag left d is enqueued as sched places it (Readied: its quantum, priority, queue and end, prev_ptr, then next_ptr the head of the highest non-empty queue and bill_ptr with it when billable); on blocking c is SENDING m to d at the end of d's caller queue and is dequeued (Dequeued: it leaves the queue of its priority, the other queues keep their order, and next_ptr and bill_ptr are picked again from what is left when it was proc_ptr or next_ptr) (SendDone); a NON_BLOCKING send never blocks, so only a blocking one needs a runnable caller |
| KProc.Kernel.BlockSender | appendixB/kernel/proc.c:324-337 | c joins the end of d's caller queue, SENDING m to d, and is dequeued (Dequeued: it leaves the queue of its priority, the other queues keep their order, and next_ptr and bill_ptr are picked again from what is left when it was proc_ptr or next_ptr) |
| KProc.Kernel.Park | appendixB/kernel/proc.c:327-337 | c, already off the ready queues, becomes SENDING to d at the end of d's caller queue |
| KProc.Kernel.PlaceSender | appendixB/kernel/proc.c:327-337 | c's entry becomes p and c is appended to d's caller queue |
| KProc.Kernel.PendingFrom | appendixB/kernel/proc.c:385-399 | the corrected scan returns the lowest pending id whose owner the receive accepts, or none |
| KProc.Kernel.FindCaller | appendixB/kernel/proc.c:409-419 | the walk finds the first acceptable sender on c's caller queue and the slot before it |
| KProc.Kernel.UnlinkCaller | appendixB/kernel/proc.c:413-415 | position k of c's caller queue is unlinked |
| KProc.Kernel.TakeNotification | appendixB/kernel/proc.c:400-404 | the pending bit is cleared, the owner's BuildMess message reaches c's buffer, and the record loses what the message reports |
| KProc.Kernel.TakeCaller | appendixB/kernel/proc.c:411-416 | the sender's message reaches c stamped with its number and nothing else of c changes; the sender loses SENDING, leaves c's caller queue and, with no flag left, is enqueued as sched places it (Readied: its quantum, priority, queue and end, prev_ptr, then next_ptr the head of the highest non-empty queue and bill_ptr with it when billable); no other entry changes |
| KProc.Kernel.Release | appendixB/kernel/proc.c:413-415 | x stops sending to c, leaves c's caller queue and, with no flag left, is enqueued as sched places it (Readied: its quantum, priority, queue and end, prev_ptr, then next_ptr the head of the highest non-empty queue and bill_ptr with it when billable); no other entry changes |
| KProc.Kernel.Detach | appendixB/kernel/proc.c:413-415 | x is unlinked and loses SENDING; a runnable x is left for enqueue |
| KProc.Kernel.UnlinkSender | appendixB/kernel/proc.c:413-415 | position k of c's caller queue is unlinked and its entry becomes x without SENDING |
| KProc.Kernel.BlockReceiver | appendixB/kernel/proc.c:425-430 | c records src and gains RECEIVING and is dequeued (Dequeued: it leaves the queue of its priority, the other queues keep their order, and next_ptr and bill_ptr are picked again from what is left when it was proc_ptr or next_ptr); no other entry and no caller queue changes |
| KProc.Kernel.Choose | appendixB/kernel/proc.c:379-419 | the choice is ReceivePick's: a pending notification, else the first acceptable sender, with its predecessor |
| KProc.Kernel.MiniReceive | appendixB/kernel/proc.c:347-434 | the outcome is ReceivePick's choice carried out: the notification built into c's buffer and taken off c's record, the scheduler unchanged; or the caller's message stamped into c's buffer, the caller off c's queue, no longer SENDING and, with no flag left, enqueued as sched places it (Readied: its quantum, priority, queue and end, prev_ptr, then next_ptr the head of the highest non-empty queue and bill_ptr with it when billable); or c blocked RECEIVING and dequeued (Dequeued: it leaves the queue of its priority, the other queues keep their order, and next_ptr and bill_ptr are picked again from what is left when it was proc_ptr or next_ptr); or ENOTREADY with NON_BLOCKING and nothing changed (ReceiveDone) |
| KProc.Kernel.Deliver | appendixB/kernel/proc.c:400-433 | each choice leads to its delivery, blocking or ENOTREADY with the whole table, the caller queues, the records and the scheduler state stated on each branch: a taken caller is Readied (enqueued by sched with pick_proc after it), a blocking receiver Dequeued, and a notification or ENOTREADY leaves the scheduler state as it was |
| KProc.Kernel.MiniNotify | appendixB/kernel/proc.c:441-497 | when d waits for c outside a SENDREC, BuildMess's message is delivered, the record loses the notification bits it reports, d loses RECEIVING and, with no flag left, is enqueued as sched places it (Readied: its quantum, priority, queue and end, prev_ptr, then next_ptr the head of the highest non-empty queue and bill_ptr with it when billable); otherwise c's privilege id joins d's pending set and nothing else changes (NotifyDone) |
| KProc.Kernel.SysCall | appendixB/kernel/proc.c:122-277 | Screen's refusal or EBADCALL leaves everything unchanged; SEND carries out mini_send (SendCallDone: SendDone, with every entry, the caller queues and the scheduler state stated, and the verdict as result); SENDREC sets SENDREC_BUSY, carries out mini_send and, when it succeeded, mini_receive from the same process (ReceiveDone from the stage after the send); RECEIVE clears SENDREC_BUSY and carries out mini_receive (ReceiveCallDone); NOTIFY carries out mini_notify (NotifyDone) and gives OK; ECHO returns the stamped message |
| KProc.Kernel.ReceivePart | appendixB/kernel/proc.c:256-261 | SENDREC_BUSY is cleared, then mini_receive's outcome from that state (ReceiveCallDone: ReceiveDone with the enqueue of a taken caller and the dequeue of a blocking receiver); the result is OK or, with NON_BLOCKING, ENOTREADY |
| KProc.Kernel.Echo | appendixB/kernel/proc.c:266-270 | the message comes back to c stamped with c's number, OK |
| KProc.Kernel.SendPart | appendixB/kernel/proc.c:244-255 | SENDREC sets SENDREC_BUSY; mini_send's outcome, and for a SENDREC whose send succeeded mini_receive's outcome after it (SendCallDone over SendDone and ReceiveDone, each with its enqueue or dequeue); the result is SendVerdict's unless a SENDREC send succeeded |
| KClock.InsertPos | appendixB/kernel/clock.c:342 | a new alarm goes after every alarm that expires no later and before the first that expires later |
| KClock.Without | appendixB/kernel/clock.c:359 | clearing a timer keeps exactly the alarms of other records |
| KClock.ExpOfMeans | appendixB/kernel/clock.c:342-361 | a record has no expiry exactly when none of its alarms is on the list, and otherwise its alarm's expiry |
| KClock.PlacedAt | appendixB/kernel/clock.c:342 | inserting an alarm gives the alarms before the insertion point, the new one, then the rest |
| KClock.PlacedHolds | appendixB/kernel/clock.c:342 | inserting adds the new alarm and nothing else, as a multiset |
| KClock.PlacedOk | appendixB/kernel/clock.c:342 | inserting into a list ordered by expiry keeps it ordered, and it holds the old alarms plus the new one |
| KClock.HeadFirst | appendixB/kernel/clock.c:169-171 | the head of an ordered list expires first; the rest is ordered and holds other records |
| KClock.ConsOk | appendixB/kernel/clock.c:169-171 | an alarm no later than every alarm of a well-formed list, of another record, can go in front |
| KClock.WithoutOk | appendixB/kernel/clock.c:359 | clearing a timer keeps the list ordered with one alarm per record |
| KClock.WithoutExp | appendixB/kernel/clock.c:359 | after clearing, the record has no expiry and every other record keeps its own |
| KClock.PlacedExp | appendixB/kernel/clock.c:342 | inserting the alarm of a record without one gives it that expiry and keeps every other record's |
| KClock.PlacedIds | appendixB/kernel/clock.c:342 | inserting the alarm of a record without one keeps one alarm per record |
| KClock.SetOk | appendixB/kernel/clock.c:329-344 | set_timer keeps the list well formed, gives the record expiry exp and keeps every other record's |
| KClock.PlacedRanges | appendixB/kernel/clock.c:342 | inserting an alarm whose record and process are in range keeps every alarm in range |
| KClock.ResetOk | appendixB/kernel/clock.c:350-362 | reset_timer keeps the list well formed, leaves the record with no expiry and keeps every other record's |
| KClock.DueCount | appendixB/kernel/clock.c:168-169 | the due alarms are the longest prefix that expires no later than now |
| KClock.DueLeavesLater | appendixB/kernel/clock.c:168-171 | on an ordered list, every alarm after the due ones expires later than now |
| KClock.SuffixOk | appendixB/kernel/clock.c:169 | what is left after the due alarms are taken off is still well formed |
| KClock.ChargedBy | appendixB/kernel/clock.c:271-297 | clock_handler's two updates, to proc_ptr and then to bill_ptr, give the charged table |
| KClock.ChargedKeeps | appendixB/kernel/clock.c:286-297 | charging changes only time fields: proc_ptr gains the ticks as user time, a non-billable proc_ptr's bill_ptr gains them as system time, and no other entry changes |
| KClock.Clock.SetTimer | appendixB/kernel/clock.c:329-344 | the record's old alarm is replaced by one at exp for process nr, in expiry order; other records keep their expiries |
| KClock.Clock.ResetTimer | appendixB/kernel/clock.c:350-362 | the record's alarm leaves the list; other records keep their expiries |
| KClock.Clock.ClockHandler | appendixB/kernel/clock.c:217-313 | realtime grows by lost_ticks + 1, lost_ticks becomes 0, the ticks are charged; when an alarm is due or proc_ptr's quantum is used up (Wakes) prev_ptr becomes proc_ptr and HARDWARE's notification of CLOCK follows on the charged table, CLOCK being enqueued by sched when woken (Ticked: NotifyDone with Readied); otherwise the table is the charged one and the records and the scheduler state are unchanged; the result is 1 |
| KClock.Clock.Advance | appendixB/kernel/clock.c:271-273 | the clock's own state after a tick: realtime becomes the new time, lost_ticks becomes 0, prev_ptr becomes the given process, the timer list is unchanged and the clock invariant holds |
| KClock.Clock.DoClocktick | appendixB/kernel/clock.c:149-176 | Clockticked: a Spent prev_ptr is dequeued and enqueued again with sched's placement and a fresh quantum, and the scheduler state is exactly Unqueued followed by Enqueued (Requeued; its entry stays so after the alarms); when next_timeout has passed the due alarms leave the list and CLOCK's notification has reached each one's owner (its notice stamped with the current time in the woken owner's buffer, or CLOCK's id pending for an owner that does not wait for CLOCK: NotifyReached), else the list, the records, the table and the scheduler state are exactly Requeued's; every alarm left expires later than now; the result is EDONTREPLY |
| KClock.Clock.ExpireAfterRequeue | appendixB/kernel/clock.c:166-176 | given the requeue step as Requeued from the entry state, the expiry step completes Clockticked: due alarms leave the list and CLOCK's notification reaches each owner (its notice stamped with the current time in the woken owner's buffer, or CLOCK's id pending for an owner that does not wait for CLOCK: NotifyReached), or nothing moves when next_timeout has not passed |
| KClock.Clock.ExpireTimers | appendixB/kernel/clock.c:168-172 | the due alarms leave the list, CLOCK's notification has reached each one's owner (its notice stamped with the current time in the woken owner's buffer, or CLOCK's id pending for an owner that does not wait for CLOCK: NotifyReached), no entry that was not RECEIVING changes, and every alarm left expires later than now |
| KClock.RunDue | appendixB/kernel/clock.c:168-169 | tmrs_exptimers's loop leaves exactly the alarms after the due ones, CLOCK's notification reaches every due alarm's owner (its notice stamped with the current time in the woken owner's buffer, or CLOCK's id pending for an owner that does not wait for CLOCK: NotifyReached), and no entry that was not RECEIVING changes |
| KClock.FireAlarm | appendixB/kernel/system/do_setalarm.c:73-87 | one expired alarm: CLOCK's notification of its owner (NotifyDone, with the enqueue of a woken owner), so its owner is woken with CLOCK's notice stamped now, or has CLOCK's id pending when it does not wait for CLOCK (NotifyReached), and the owners notified before keep their notification |
| KClock.AlarmStep | appendixB/kernel/system/do_setalarm.c:73-87 | a notification from CLOCK reaches the alarm's owner as NotifyReached at that time and keeps every earlier one from CLOCK, CLOCK's record id and every entry not RECEIVING |
| KClock.RequeueSpent | appendixB/kernel/clock.c:158-161 | prev_ptr is dequeued and enqueued again exactly when it is Spent: the queue it leaves and the one sched puts it on, its fresh quantum, prev_ptr, next_ptr and bill_ptr are Requeued's; otherwise nothing changes; the records do not change |
| KClock.Requeue | appendixB/kernel/clock.c:158-161 | a runnable prev_ptr is dequeued and enqueued again: the scheduler state is Unqueued followed by sched's placement with a fresh quantum (Requeued), and the records, proc_ptr and the caller queues stay |
| KClock.Clock.DoSetalarm | appendixB/kernel/system/do_setalarm.c:28-68 | EPERM exactly for a caller that is not a system process, with the list unchanged; otherwise OK, the time left on the old alarm (0 when none or past), the alarm cancelled for 0 or set absolute or relative, others unchanged |
| KClock.Clock.Rearm | appendixB/kernel/system/do_setalarm.c:53-66 | the time left on the old alarm is returned; the alarm is cancelled for exp 0, else set to exp or now + exp; others unchanged |
| KClock.CauseAlarm | appendixB/kernel/system/do_setalarm.c:73-87 | CLOCK notifies the alarm's process: delivered into its buffer, with the enqueue of a woken process, when it waits for CLOCK, else CLOCK's id pending in its record (NotifyDone) |
| KClock.ChargeAndWake | appendixB/kernel/clock.c:286-311 | the table is charged; CLOCK is notified from HARDWARE exactly when an alarm is due or proc_ptr has no quantum left (Wakes), with NotifyDone's outcome, CLOCK's enqueue included, on the charged table; otherwise the scheduler state stays (Ticked) |
| KClock.NotifyOf | appendixB/kernel/proc.c:503-537 | lock_notify's outcome: the notice delivered, RECEIVING cleared and the destination enqueued by sched when no flag is left, when it waits for the sender outside a SENDREC; else the sender's id pending in the destination's record and nothing else changed (NotifyDone) |
| KClock.NotifyDoneReaches | appendixB/kernel/proc.c:441-497 | a notification reaches its destination: it is woken, no longer RECEIVING, with the notice stamped with the uptime, or it does not wait for the sender and the sender's id is pending; it keeps every earlier one from the same sender, every owner and record id, and every entry not RECEIVING |
| KClock.Charge | appendixB/kernel/clock.c:286-297 | the table becomes the charged one |
| KClock.ChargeRunning | appendixB/kernel/clock.c:286-291 | proc_ptr's user time grows by the ticks and a preemptible process's quantum shrinks by them; nothing else changes |
| KClock.ChargeBill | appendixB/kernel/clock.c:294-297 | bill_ptr's system time grows by the ticks and its quantum shrinks by them; nothing else changes |
| KExit.FindSender | appendixB/kernel/system/do_exit.c:91-98 | the walk along d's caller queue finds x's position and the slot before it, whose link (or the queue head) points at x |
| KExit.FreeRunnable | appendixB/kernel/system/do_exit.c:76 | a runnable process leaves the ready queue of its priority and its flags become SLOT_FREE; the caller queues stay |
| KExit.FreeSender | appendixB/kernel/system/do_exit.c:86-100 | a sending process leaves the caller queue of its destination (another slot) and its flags become SLOT_FREE; the ready queues stay |
| KExit.MarkFree | appendixB/kernel/system/do_exit.c:115 | a process off every queue gets the flags SLOT_FREE and the queue invariant holds again |
| KExit.DetachSender | appendixB/kernel/system/do_exit.c:86-100 | x leaves its destination's caller queue and loses SENDING; no other caller queue and no ready queue changes |
| KExit.Vacate | appendixB/kernel/system/do_exit.c:74-100 | a runnable process leaves its ready queue, a sending one its destination's caller queue, the flags become SLOT_FREE, and the senders queued on x itself stay |
| KExit.Disown | appendixB/kernel/system/do_exit.c:116 | the privilege structure's s_proc_nr becomes NONE and nothing else changes |
| KExit.FreeSlot | appendixB/kernel/system/do_exit.c:74-116 | the slot is SLOT_FREE, a system process's privilege structure has no owner, and the process is off its ready and caller queues |
| KExit.ClearProc | appendixB/kernel/system/do_exit.c:63-117 | the alarm of x's privilege structure is cleared, x is off every queue and empty (isemptyp), a system process's privilege structure has no owner, and x's IRQ hooks are free and on no chain, the others unchanged |
| KExit.ReleaseSlot | appendixB/kernel/system/do_exit.c:74-116 | the kernel tables as FreeSlot leaves them and x's IRQ hooks released |
| KExit.ExitTarget | appendixB/kernel/system/do_exit.c:44-56 | the slot cleared is a valid process number from the PM or the caller itself |
| KExit.ExitOnlyPmClearsOthers | appendixB/kernel/system/do_exit.c:44-57 | only the PM clears another slot; EINVAL exactly when nothing is cleared; no reply exactly when the caller clears itself and is not the PM naming another process |
| KExit.DoExit | appendixB/kernel/system/do_exit.c:24-58 | the reply is OK, EINVAL or EDONTREPLY as ExitOnlyPmClearsOthers relates; on EINVAL nothing changes; otherwise the target's entry is emptied to SLOT_FREE, its senders and itself leave every queue (clear_proc: SlotCleared, QueuesCleared), its alarm is reset and its interrupt hooks are released |
| KFork.Half | appendixB/kernel/system/do_fork.c:68-69 | C's division by two, truncating toward zero |
| KFork.PutWord | appendixB/kernel/system/do_fork.c:60 | one register word becomes the given value and the others are kept |
| KFork.ForkedChildBlocked | appendixB/kernel/system/do_fork.c:53-78 | the child holds NO_MAP (and NO_PRIV and the user privilege structure under a system parent), is not empty, sends only if the parent did, and has no SIGNALED, SIG_PENDING or P_STOP |
| KFork.QuantumShared | appendixB/kernel/system/do_fork.c:64-69 | the two halves of an unused quantum add up to it, and the child has the extra tick of an odd one |
| KFork.IdleRetagInv | appendixB/kernel/system/do_fork.c:48-78 | an entry that neither sends nor can run may be replaced by another such entry without breaking the queue invariant |
| KFork.DoFork | appendixB/kernel/system/do_fork.c:28-80 | EINVAL when the parent's slot is empty or the child's is not, with nothing changed; otherwise OK, the child's slot holds the adjusted copy of the parent and the parent keeps half its quantum; the ready and caller queues are unchanged, so no sender of the parent is queued on the child; the queue invariant holds |
| KFork.ForkAliasBreaksCallers | appendixB/kernel/system/do_fork.c:48 | when processes are queued to send to the parent, the structure copy gives the child a caller queue that no assignment of caller queues describes |
| KIrq.LowestFree | appendixB/kernel/i8259.c:101-109 | the lowest id bit from b up that no hook on the chain uses, or none when all up to 31 are used |
| KIrq.PutAsWritten | appendixB/kernel/i8259.c:87-120 | a hook already on the chain changes nothing; otherwise it is appended with the bit numbered by the chain's length, and the panic comes exactly when 32 hooks are already on it |
| KIrq.FirstWith | appendixB/kernel/i8259.c:141-148 | rm_irq_handler's walk stops at the first hook with the id, or at the end |
| KIrq.PutSucceeds | appendixB/kernel/i8259.c:109 | with fewer than 32 hooks on the chain, the corrected put_irq_handler does not panic |
| KIrq.PutDistinct | appendixB/kernel/i8259.c:101-116 | the corrected put_irq_handler keeps the ids on a chain distinct and puts the hook on the chain |
| KIrq.RmExactly | appendixB/kernel/i8259.c:141-146 | on a chain with distinct ids, removing by a hook's id unlinks exactly that hook |
| KIrq.PutRmRoundTrip | appendixB/kernel/i8259.c:87-150 | removing a newly put hook by its id gives the chain back |
| KIrq.RmSub | appendixB/kernel/i8259.c:141-146 | removal keeps ids distinct, adds no hook, and shortens the chain by one exactly when the id is on it |
| KIrq.AsWrittenIdClash | appendixB/kernel/i8259.c:101-116 | as written: put hooks 0 and 1, remove hook 0, put hook 2; hooks 1 and 2 now share id bit 1, and removing hook 2 by its id unlinks hook 1 |
| KIrq.FixedIdsSeparate | appendixB/kernel/i8259.c:101-116 | with the lowest free id, the same sequence gives hook 2 bit 0, and removing it leaves hook 1 |
| KIrq.BitsCard | appendixB/kernel/i8259.c:101-109 | a chain uses no more ids than it has hooks |
| KIrq.SlotsCard | appendixB/kernel/i8259.c:104-106 | a chain of different hooks holds as many hooks as entries |
| KIrq.SlotsSnoc | appendixB/kernel/i8259.c:116 | appending a hook adds exactly that hook to the chain's set |
| KIrq.HookIndex | appendixB/kernel/system/do_irqctl.c:45 | the hook index is IRQ_HOOK_ID - 1, wrapping to 0x7FFFFFFF for the least int |
| KIrq.HookZeroEscapes | appendixB/kernel/system/do_irqctl.c:45-55 | IRQ_HOOK_ID 0 gives index -1, which the one-sided check as written accepts |
| KIrq.HookCheckMeans | appendixB/kernel/system/do_irqctl.c:43-55 | the corrected two-sided check accepts exactly the hook ids 1 .. NR_IRQ_HOOKS, all of which the check as written accepts too |
| KIrq.NotifyIdOk | appendixB/kernel/system/do_irqctl.c:94-95 | the unsigned comparison accepts exactly notify ids 0 .. 31 |
| KIrq.ActAfterStep | appendixB/kernel/i8259.c:164-174 | one round of intr_handle's loop sets the hook's id bit and clears it again when the handler asks for reenabling |
| KIrq.ChainStep | appendixB/kernel/i8259.c:164-174 | after one more round the active ids of the line are those of one more hook |
| KIrq.BinStep | appendixB/kernel/i8259.c:164-174 | the bins after i samples of the line, then sample i, are the bins after i + 1 samples |
| KIrq.ChainDone | appendixB/kernel/i8259.c:164-174 | at the end of the chain only the line's active ids changed, to ActAfter of the chain |
| KIrq.ActAfterMeans | appendixB/kernel/i8259.c:164-174 | after the chain ran, an id of a hook on it is active exactly when that hook's handler did not ask to reenable; other ids keep their state |
| KIrq.OnChainOwned | appendixB/kernel/i8259.c:112-116 | a hook on a chain is owned by a process and on its own line's chain only; a free hook is on no chain |
| KIrq.ChainShort | appendixB/kernel/i8259.c:104-109 | no chain holds more hooks than there are, fewer than 32 |
| KIrq.PutKeeps | appendixB/kernel/i8259.c:112-119 | putting an owned hook that is on no chain onto a line keeps the tables well formed and adds the line to irq_use |
| KIrq.RmKeeps | appendixB/kernel/i8259.c:141-146 | removing from a chain keeps the tables well formed, with irq_use the lines whose chain is not empty |
| KIrq.InstallKeeps | appendixB/kernel/system/do_irqctl.c:98-100 | filling in a free hook keeps the tables well formed, and the hook is on no chain |
| KIrq.RmDetaches | appendixB/kernel/i8259.c:141-146 | after removal by its id, a hook is on no chain |
| KIrq.FreeKeeps | appendixB/kernel/system/do_exit.c:106 | marking a hook that is on no chain free keeps the tables well formed |
| KIrq.Reenables | appendixB/kernel/system/do_irqctl.c:160 | one reenable answer per hook of the chain |
| KIrq.IrqTable.PutHandler | appendixB/kernel/i8259.c:87-120 | the hook is put on the line's chain as the corrected put_irq_handler gives it, its irq and id recorded, the line added to irq_use; nothing else changes |
| KIrq.IrqTable.RmHandler | appendixB/kernel/i8259.c:126-150 | the first hook with the hook's id leaves its line's chain; irq_use is the lines whose chain is not empty; the hooks stay |
| KIrq.IrqTable.GenericHandler | appendixB/kernel/system/do_irqctl.c:127-161 | get_randomness folds the sample into the hook's line's entropy bin (Sampled) and no other bin; the hook's id bit joins the owner's pending interrupts and HARDWARE's notification of the owner follows (IrqNotified: NotifyDone on the record with only that bit added), so the bit reaches the process; the result is the policy's reenable bit |
| KIrq.IrqTable.NotifyHook | appendixB/kernel/system/do_irqctl.c:151-160 | the hook's id bit joins its process's pending interrupts, nothing else of the record changing, and HARDWARE notifies it (IrqNotified: NotifyDone from that record, with the owner's enqueue when woken); the bit reaches the process |
| KIrq.IrqTable.IntrHandle | appendixB/kernel/i8259.c:155-183 | the line's active ids become ActAfter of the chain: an id of a hook on the chain is active exactly when its handler did not ask to reenable, and no other line's ids change; the line's entropy bin has folded in one sample per hook, in chain order (SampledAll); the process table, the records and the scheduler state change as the hooks' notifications (GenericHandler) change them |
| KIrq.IrqTable.RunChain | appendixB/kernel/i8259.c:164-174 | the line's active ids become ActAfter of the chain and its entropy bin SampledAll of the samples |
| KIrq.IrqTable.Turn | appendixB/kernel/i8259.c:164-174 | one pass of the loop: hook i runs, the line's active ids are ActAfter-consistent one hook further and its entropy bin holds the first i + 1 samples |
| KIrq.IrqTable.HandleOne | appendixB/kernel/i8259.c:171-173 | one hook's round on the active ids, and one sample folded into the line's entropy bin |
| KIrq.IrqTable.DoIrqctl | appendixB/kernel/system/do_irqctl.c:32-122 | ENABLE, DISABLE and RMPOLICY: EINVAL exactly for a bad index or a free hook, EPERM exactly for another process's hook, else OK; an OK ENABLE clears the hook's id bit in its line's irq_actids (enable_irq), an OK DISABLE sets it (disable_irq), and only an OK RMPOLICY unlinks the hook; no other request touches irq_actids; SETPOLICY: EINVAL for a bad line or notify id, ENOSPC when no hook is free, else the first free hook is src's, on the line's chain, and its index + 1 returned; any other request EINVAL with nothing changed |
| KIrq.IrqTable.HookRequest | appendixB/kernel/system/do_irqctl.c:52-63 | the ENABLE, DISABLE and RMPOLICY outcome as DoIrqctl states it: the result codes, the hook's id bit cleared in irq_actids by an OK ENABLE and set by an OK DISABLE (ActidsRequested), and the unlink of an OK RMPOLICY |
| KIrq.IrqTable.SetPolicy | appendixB/kernel/system/do_irqctl.c:72-105 | the SETPOLICY outcome as DoIrqctl states it |
| KIrq.IrqTable.ReleaseHooks | appendixB/kernel/system/do_exit.c:103-108 | every hook of process nr becomes free and leaves every chain; other hooks stay and no chain gains an entry |
| KIrq.IrqTable.ReleaseOne | appendixB/kernel/system/do_exit.c:105-106 | hook i leaves every chain and becomes free; no chain gains an entry |
| KIrq.IrqTable.FreeHook | appendixB/kernel/system/do_irqctl.c:79-85 | the index of the first free hook, or NR_IRQ_HOOKS when none is free |
| KIrq.IrqTable.Install | appendixB/kernel/system/do_irqctl.c:98-101 | the free hook gets src, the notify id, the policy and the line, and is put on that line's chain; removing it by its id would give the chain back |
| KIrq.SetPolicyOk | appendixB/kernel/system/do_irqctl.c:72-105 | installing the first free hook gives the OK outcome of SETPOLICY with index s + 1 |
| KIrq.IrqTable.constructor | appendixB/kernel/system.c:155-157 | every hook starts free, every chain empty and no id active |
| KSignal.SendSig | appendixB/kernel/system.c:311-329 | sig joins the pending signals of x's record, nothing else of it changing, and SYSTEM's notification of x follows (SigSent: NotifyDone, with x's enqueue when woken); hence the signal reaches x, only that record changes, it keeps its flags and gains at most SYSTEM's pending notification |
| KSignal.SigSentReaches | appendixB/kernel/system.c:311-329 | from SigSent: only x's entry and record change, the signal is pending for x or has reached its buffer (SigReached), x keeps its flags and privilege id, and at most SYSTEM's id joins its pending notifications |
| KSignal.CauseSig | appendixB/kernel/system.c:334-380 | sig joins the pending set; an already pending signal changes nothing; a process already SIGNALED changes only in its pending set; otherwise it becomes SIGNALED and SIG_PENDING, is dequeued when it was runnable, and SIGKSIG is sent to the PM (SigCaused: RaiseDone, with SigSent's records and scheduler state); SIGNALED still implies SIG_PENDING |
| KSignal.CausedByRaise | appendixB/kernel/system.c:368-378 | adding the signal and then raising it gives cause_sig's table |
| KSignal.AddPending | appendixB/kernel/system.c:368-369 | sig joins x's pending signals and nothing else changes |
| KSignal.Raise | appendixB/kernel/system.c:371-377 | x becomes SIGNALED and SIG_PENDING and is dequeued if runnable (Unqueued), then SIGKSIG is sent to the PM with SigSent's outcome (RaiseDone); only x and the PM change in the table, SIGKSIG reaches the PM, and SIGNALED still implies SIG_PENDING |
| KSignal.RaisedBySteps | appendixB/kernel/system.c:374-377 | setting the flags and then notifying the PM gives the raised table and keeps SIGNALED paired with SIG_PENDING |
| KSignal.MarkSignaled | appendixB/kernel/system.c:374-375 | x gains SIGNALED and SIG_PENDING and nothing else of the table changes; a runnable x is dequeued (Dequeued: the other queues keep their order, next_ptr and bill_ptr picked again when x was proc_ptr or next_ptr), otherwise the scheduler state stays |
| KSignal.RaisePaired | appendixB/kernel/system.c:375-377 | setting both flags and then changing only the PM's RECEIVING keeps every SIGNALED process SIG_PENDING |
| KSignal.PairedUpdate | appendixB/kernel/system/do_getksig.c:51 | replacing an entry by one whose SIGNALED implies SIG_PENDING keeps the pairing |
| KSignal.DoKill | appendixB/kernel/system/do_kill.c:26-61 | EINVAL exactly for a bad process number or a signal above _NSIG; EPERM for a kernel task; from the PM, OK exactly for a system process, and then send_sig's outcome (SigSent); from anyone else, OK and cause_sig's outcome (SigCaused); on an error nothing changes |
| KSignal.FirstSignaled | appendixB/kernel/system/do_getksig.c:45-54 | the scan returns a SIGNALED slot from `from` on |
| KSignal.FirstSignaledLowest | appendixB/kernel/system/do_getksig.c:45-54 | the scan finds nothing exactly when no slot from `from` on is SIGNALED, and otherwise finds the first one |
| KSignal.DoGetksig | appendixB/kernel/system/do_getksig.c:26-59 | OK always; the first SIGNALED user slot reports its number and pending signals, which it loses along with SIGNALED; with none, NONE and no change |
| KMem.SegmentSplits | appendixB/kernel/system/do_umap.c:35-36 | a segment word is its type bits plus its index bits, each within its mask |
| KMem.PhysBitOfType | appendixB/kernel/system/do_copy.c:76-77 | the PHYS_SEG test selects PHYS_SEG and none of LOCAL_SEG, REMOTE_SEG and BIOS_SEG |
| KMem.LocalSeg | appendixB/kernel/system.c:400-412 | umap_local's choice of segment is always T, D or S |
| KMem.ClickBelow | appendixB/kernel/system.c:403-407 | a click index is below n exactly when the byte address is below n clicks |
| KMem.UmapLocalChecks | appendixB/kernel/system.c:385-432 | a non-zero answer means a non-empty range, without wrap, ending inside the chosen segment; a range wholly inside the chosen segment maps to its physical base plus the offset |
| KMem.UmapLocalInMemory | appendixB/kernel/system.c:413-431 | for a segment whose physical extent fits 32 bits, a non-zero answer lies with all its bytes inside that extent |
| KMem.RemoteWrapEscapes | appendixB/kernel/system.c:437-455 | as written: offset 0xFFFFFFFF with 2 bytes passes the wrapped test and maps below the far segment's base |
| KMem.UmapRemoteInSegment | appendixB/kernel/system.c:437-455 | the corrected umap_remote answers non-zero only for an in-use far segment holding the whole range, and then inside its physical extent; such a range maps to base plus offset |
| KMem.BiosWrapEscapes | appendixB/kernel/system.c:460-484 | as written: 0x20 bytes at 0xFFFFFFF0 pass the wrapped range test; the corrected test refuses them |
| KMem.UmapBiosAreas | appendixB/kernel/system.c:460-484 | the corrected umap_bios answers non-zero exactly for ranges inside the BIOS areas, with the address itself, never above UPPER_MEM_END |
| KMem.VirtualCopy | appendixB/kernel/system.c:489-546 | the reply is CopyReply's, and on OK both addresses map to the physical addresses returned |
| KMem.CopyOkInside | appendixB/kernel/system.c:489-546 | after an OK copy each range lies inside its process's segment, far segment or BIOS area, or is physical |
| KMem.MapInside | appendixB/kernel/system.c:503-523 | an address that maps with status OK lies inside what it names |
| KMem.DoUmap | appendixB/kernel/system/do_umap.c:30-62 | EINVAL exactly for a bad process number (after SELF) or a segment type other than LOCAL, REMOTE and BIOS; otherwise the physical address is the mapping, and OK exactly when it is not 0, else EFAULT |
| KMem.AddrCheckOk | appendixB/kernel/system/do_copy.c:66-78 | an address that passes do_copy's checks has a valid process or is physical, and PHYS_SEG only under SYS_PHYSCOPY |
| KMem.DoCopy | appendixB/kernel/system/do_copy.c:35-92 | the reply is the checks' refusal or virtual_copy's, after SELF is resolved; on OK both addresses are valid and map to the physical addresses returned |
| KMem.NegativeVecSizeOverruns | appendixB/kernel/system/do_vcopy.c:53-64 | as written: a negative vector size passes the check and asks to copy 2800 bytes into a vector of VCOPY_VEC_SIZE requests |
| KMem.VecSizeOkFits | appendixB/kernel/system/do_vcopy.c:53-55 | under the corrected check the vector fits the kernel's copy of it |
| KMem.VcopyLetsBadProcThrough | appendixB/kernel/system/do_vcopy.c:73-76 | as written: a request naming process 1000 passes the vector's checks although it is not a process number |
| KMem.ReqCheck | appendixB/kernel/system/do_vcopy.c:73-76 | the corrected check admits a request only when both of its addresses are valid |
| KMem.DoVcopy | appendixB/kernel/system/do_vcopy.c:31-80 | EINVAL for a bad vector size and EFAULT when the vector cannot be mapped, with no copy; the requests run in order while each succeeds, VCP_NR_OK counts them, and OK means all did; otherwise the reply is the first failing request's |
| KMem.FreeFar | appendixB/kernel/system/do_segctl.c:51-59 | the first far segment not in use, or none |
| KMem.FreeFarFirst | appendixB/kernel/system/do_segctl.c:51-60 | a scan that passes only segments in use and stops at a free one or at the end agrees with FreeFar |
| KMem.SegSetupReaches | appendixB/kernel/system/do_segctl.c:63-94 | the reply's index names that far segment as REMOTE_SEG; in real mode selector and offset give phys; in protected mode the extra LDT entry's base plus the offset give phys, the selector names that entry with USER_PRIVILEGE, and the limit is size - 1, or 4 GiB for a large size |
| KMem.DoSegctl | appendixB/kernel/system/do_segctl.c:30-96 | ENOSPC exactly when every far segment is in use, with nothing changed; otherwise OK, the first free far segment records phys and size and the reply is SegSetup's |
| KMem.SegctlThenUmap | appendixB/kernel/system/do_segctl.c:51-56 | after a far segment is recorded, umap_remote maps a range inside it to phys plus the offset |
| KTrace.WithPsw | appendixB/kernel/system/do_trace.c:84 | the frame with a new psw: every other word and the segment registers are kept |
| KTrace.OffsetsDiffer | appendixB/kernel/system/do_trace.c:125-128 | different aligned frame offsets name different register words |
| KTrace.SetUserThenGetUser | appendixB/kernel/system/do_trace.c:124-150 | after an accepted T_SETUSER the word at that offset reads back the data (through SETPSW for psw), every other word and the segment registers are kept, and the trace bit cannot change |
| KTrace.Stopped | appendixB/kernel/system/do_trace.c:81-85 | a stopped process has P_STOP, cannot run, and has the trace bit clear |
| KTrace.Resumed | appendixB/kernel/system/do_trace.c:152-163 | a resumed process loses P_STOP and can run exactly when no other flag was set; T_STEP sets the trace bit |
| KTrace.StopThenResume | appendixB/kernel/system/do_trace.c:81-163 | stopping a process and resuming it, stepping when it was tracing, gives it back unchanged |
| KTrace.TraceBitRestored | appendixB/kernel/system/do_trace.c:84-159 | clearing the trace bit and setting it again when it was set gives the psw back |
| KTrace.ResumeRequeueCycles | appendixB/kernel/system/do_trace.c:152-156 | as written: resuming a runnable, unstopped process that is not first on its queue enqueues it again at the front, and the relinked queue no longer describes any set of ready queues |
| KTrace.FrontRelinkCycles | appendixB/kernel/proc.c:563-565 | linking a slot that is already on a list (not first) in front of the head gives no list |
| KTrace.TraceSeg | appendixB/kernel/system/do_trace.c:87-122 | the instruction-space requests use T exactly when the text segment is not empty; all others use D |
| KTrace.MemRequestInSegment | appendixB/kernel/system/do_trace.c:87-122 | an accepted memory request's word lies, without wrap, inside the segment chosen; without a text segment the instruction requests read the data address |
| KTrace.SetUserRequestThenGetUser | appendixB/kernel/system/do_trace.c:102-150 | after an accepted T_SETUSER, T_GETUSER at the same offset is accepted and answers the data written (through SETPSW for psw) |
| KTrace.TraceStop | appendixB/kernel/system/do_trace.c:81-85 | the process becomes stopped, leaves its ready queue when it was runnable, and is on no ready queue |
| KTrace.TraceResume | appendixB/kernel/system/do_trace.c:152-163 | P_STOP is cleared (and the trace bit set for T_STEP); when that leaves the process runnable and it was stopped, it is enqueued as Sched says; a process that was already runnable is not enqueued again; afterwards it is runnable exactly when it is on the queue of its priority |
| KTrace.ResumeRunnable | appendixB/kernel/system/do_trace.c:152-163 | a runnable process is only resumed, with no queue change |
| KTrace.ResumeBlocked | appendixB/kernel/system/do_trace.c:152-163 | a blocked process is resumed and enqueued as Sched says exactly when no flag is left |
| KTrace.TraceSetUser | appendixB/kernel/system/do_trace.c:124-150 | only the process's register frame changes, as SetUser writes it |
| KTrace.DoTrace | appendixB/kernel/system/do_trace.c:31-169 | EINVAL for a bad process number, EPERM for a kernel task, EIO for an empty slot or a refused request; on OK the answer and the effect on the table and ready queues are the request's; a failure changes nothing |
| KSystem.MappedCallsFit | appendixB/kernel/system.c:180-220 | every mapped handler's call number is a valid call_vec index, and no two handlers share one |
| KSystem.SystemTask.constructor | appendixB/kernel/system.c:176-178 | a fresh call vector of NR_SYS_CALLS entries |
| KSystem.SystemTask.Initialize | appendixB/kernel/system.c:165-221 | afterwards every entry i holds a handler for call i and every known handler sits at its call number: no entry is left at do_unused |
| KSystem.SystemTask.MapProcessManagement | appendixB/kernel/system.c:180-186 | SYS_FORK to SYS_TRACE get their handlers, every other entry is unchanged |
| KSystem.SystemTask.MapSignalHandling | appendixB/kernel/system.c:188-193 | SYS_KILL to SYS_SIGRETURN get their handlers, every other entry is unchanged |
| KSystem.SystemTask.MapDeviceIo | appendixB/kernel/system.c:195-200 | SYS_IRQCTL to SYS_VDEVIO (with SYS_INT86) get their handlers, every other entry is unchanged |
| KSystem.SystemTask.MapMemoryManagement | appendixB/kernel/system.c:202-205 | SYS_NEWMAP to SYS_MEMSET get their handlers, every other entry is unchanged |
| KSystem.SystemTask.MapCopying | appendixB/kernel/system.c:207-212 | SYS_UMAP to SYS_PHYSVCOPY get their handlers, every other entry is unchanged |
| KSystem.SystemTask.MapClock | appendixB/kernel/system.c:214-216 | SYS_SETALARM and SYS_TIMES get their handlers, every other entry is unchanged |
| KSystem.SystemTask.MapSystemControl | appendixB/kernel/system.c:218-220 | SYS_GETINFO and SYS_ABORT get their handlers, every other entry is unchanged |
| KSystem.DispatchChecks | appendixB/kernel/system.c:87-142 | a handler runs exactly when the call number is below NR_SYS_CALLS and the caller's mask grants it, and it is the handler for m_type - KERNEL_CALL; EBADREQUEST exactly for a too-large number whose bit (shift taken modulo 32) is in the mask; a type below KERNEL_CALL never runs a handler; a refused call is always answered |
| KSystem.FreePrivFrom | appendixB/kernel/system.c:244-247 | the first unbound record (s_proc_nr NONE, not USER_PRIV_ID) at i or later, or None when every later record is bound |
| KSystem.GetPrivOverrun | appendixB/kernel/system.c:244-249 | as written: with every record bound and NONE in the word after priv[], the search stops one past the end of the table instead of answering ENOSPC |
| KSystem.FindFreePriv | appendixB/kernel/system.c:244-247 | the search loop finds FreePrivFrom's record |
| KSystem.GetPriv | appendixB/kernel/system.c:228-262 | a system process gets the first unbound record, which now names it with flags SYS_PROC, or ENOSPC with nothing changed; a user process gets the shared USER_PRIV_ID record, set to INIT_PROC_NR with no flags; only slot x and that record change |
| KSystem.BindPriv | appendixB/kernel/system.c:252-259 | slot x points at record i and record i becomes v; nothing else changes |
| KSystem.Sampled | appendixB/kernel/system.c:291-305 | one sample keeps the bin well formed (r_next and r_size in range) |
| KSystem.SampledAll | appendixB/kernel/system.c:291-305 | a run of samples keeps the bin well formed |
| KSystem.SampledShifts | appendixB/kernel/system.c:298-305 | after a sample, the newest entry behind r_next is the sample's low word and every older one has moved one place back |
| KSystem.RingHoldsLatest | appendixB/kernel/system.c:291-305 | after n samples, r_size grew by n up to RANDOM_ELEMENTS, r_next moved n places round the ring, and the last RANDOM_ELEMENTS samples sit newest first behind r_next |
| KSystem.Randomness.GetRandomness | appendixB/kernel/system.c:267-306 | only the bin of source modulo RANDOM_SOURCES changes, and it changes as Sampled says |
| KMain.ClearTables | appendixB/kernel/main.c:71-85 | slot i becomes SLOT_FREE with p_nr = i - NR_TASKS and record i gets s_proc_nr NONE and s_id i; no other field changes, so the tables are Cleared |
| KMain.ClearedTablesAreFree | appendixB/kernel/main.c:71-85 | after clearing every slot is empty and maps back to its own index through proc_nr, and get_priv's search answers record 1 (record 0 is USER_PRIV_ID) |
| KMain.FirstFree | appendixB/kernel/system.c:244-247 | when record n is the first unbound one, get_priv's search answers n |
| KMain.Clicks | appendixB/kernel/main.c:173-177 | rounding up: the clicks cover the bytes, and one click fewer would not |
| KMain.BootMap | appendixB/kernel/main.c:171-184 | the map keeps its three segments |
| KMain.BootMapLayout | appendixB/kernel/main.c:171-184 | text starts at the click holding a_syms, data follows the text, the stack follows the data and starts at the data's virtual end; text and data are the smallest click counts covering a_text and a_total, and the text is empty without A_SEP; the other fields are kept |
| KMain.ArgcWordInData | appendixB/kernel/main.c:206-209 | for a server whose data starts at virtual 0 and stack segment is empty, the initial sp is one word below the top of data, and umap_local finds that word inside the data segment |
| KMain.ImageBootable | appendixB/kernel/table.c:147-292 | MINIX's image has one entry per boot process, no two for one process, the kernel tasks first in order, every entry but INIT a system process |
| KMain.ImageRowsOk | appendixB/kernel/table.c:147-292 | every entry of the image has a slot among the boot processes, a scheduling queue and a positive quantum |
| KMain.ImageSysEntries | appendixB/kernel/table.c:147-292 | exactly the entries before INIT's carry SYS_PROC |
| KMain.ImageDistinct | appendixB/kernel/table.c:147-292 | no two image entries name the same process |
| KMain.RowPriv | appendixB/kernel/main.c:120 | the record each entry gets is among the first NR_BOOT_PROCS |
| KMain.HdrIndex | appendixB/kernel/main.c:146-154 | the a.out header index is within the headers the loader supplies (one for the kernel, one per other boot process) |
| KMain.TaskStacksFit | appendixB/kernel/table.c:64-73 | IDLE, CLOCK and SYSTEM take IDL_S, TSK_S and TSK_S of t_stack one after another, HARDWARE takes none, and together the kernel tasks use exactly TOT_STACK_SPACE |
| KMain.FlagSet | appendixB/kernel/main.c:122 | a flag is in the set exactly when its bit is set in the image's flags word |
| KMain.BootTraps | appendixB/kernel/main.c:124 | a booted record permits a trap exactly when the image's trap mask has its bit |
| KMain.BootRights | appendixB/kernel/table.c:147-292 | CLOCK and SYSTEM may only RECEIVE, IDLE and HARDWARE may not trap, INIT may only SENDREC and ECHO, and PM may make every kernel call except the device-I/O and IRQ calls |
| KMain.BootFlags | appendixB/kernel/table.c:147-292 | among the kernel tasks only IDLE is billable and preemptible; every boot process except INIT is a system process |
| KMain.BootRegs | appendixB/kernel/main.c:196-209 | the register frame stays well formed |
| KMain.SelectorWordsMatch | appendixB/kernel/protect.c:448-453 | the 16-bit selector words main loads are alloc_segments' cs and its common ds/es/ss/fs/gs selector |
| KMain.BootProc | appendixB/kernel/main.c:108-224 | the booted slot keeps a well formed map and register frame |
| KMain.BootProcOk | appendixB/kernel/main.c:108-224 | a booted slot keeps its number and is well formed, it is runnable exactly when it is not HARDWARE, never sending, with ticks left, and its psw grants I/O privilege 1 to kernel tasks and none to the others |
| KMain.BootQueues | appendixB/kernel/main.c:213-216 | there is one list per scheduling queue |
| KMain.BootReadyQueues | appendixB/kernel/main.c:105-225 | booting MINIX's image leaves exactly these ready lists (SYSTEM then CLOCK at TASK_Q, ..., IDLE at IDLE_Q) and pick_proc chooses SYSTEM |
| KMain.BootQueuesStep | appendixB/kernel/main.c:213-216 | enqueuing entry n puts its slot at the front of the queue of its priority, as sched does for a full quantum |
| KMain.BootRow | appendixB/kernel/main.c:105-225 | one entry: ktsb moves past a kernel task's stack, the slot becomes BootProc and the record BootPriv, every entry but HARDWARE is enqueued at the front of its queue and next_ptr is pick_proc's choice; HARDWARE leaves the queues and next_ptr |
| KMain.Admit | appendixB/kernel/main.c:120-220 | only slot x and record r change; a runnable process is enqueued at the front of its queue and pick_proc chooses again, a blocked one leaves queues and next_ptr |
| KMain.BindRecord | appendixB/kernel/main.c:120-127 | slot x points at record r, which becomes v; nothing else in the tables changes |
| KMain.Install | appendixB/kernel/main.c:108-220 | slot x becomes p; a runnable p is enqueued at the front of its queue and pick_proc chooses again, a blocked one leaves queues and next_ptr |
| KMain.Boot | appendixB/kernel/main.c:71-238 | every boot slot holds its BootProc and every record its BootPriv, the slots past the image are unchanged, the ready lists are BootQueues of the image, next_ptr is pick_proc's choice and bill_ptr is IDLE |
| KMain.BootLoop | appendixB/kernel/main.c:105-225 | after the loop all NR_BOOT_PROCS entries are booted |
| KMain.BillIdle | appendixB/kernel/main.c:238 | bill_ptr becomes IDLE; queues and next_ptr are unchanged |
| KMain.BootEntry | appendixB/kernel/main.c:105-225 | one iteration moves the loop's progress from entry i to entry i + 1 |
| KMain.LoopStart | appendixB/kernel/main.c:103-105 | before the first entry, the cleared tables and empty queues satisfy the loop's state |
| KMain.EntryReady | appendixB/kernel/main.c:108-120 | before entry i its slot is still free, and get_priv will give it record i + 1 (a system process) or the shared user record (INIT) |
| KMain.LoopStep | appendixB/kernel/main.c:105-225 | booting entry i moves the slots, records, queues and ktsb of the loop's state on to i + 1 |
| KMain.BootedStep | appendixB/kernel/main.c:105-225 | booting entry i extends the booted slots by one and touches no later slot |
| KMain.BootedRecordsStep | appendixB/kernel/main.c:120-127 | booting entry i extends the booted records by one |
| KMain.RecordsBeforeBound | appendixB/kernel/system.c:244-247 | when records 1..i are bound and the rest free, get_priv's search answers i + 1 |
| KMain.KtsbStep | appendixB/kernel/main.c:141 | ktsb after entry i + 1 is ktsb after entry i advanced by that entry's stack |
| KMain.Wrap32Add | appendixB/kernel/main.c:141 | adding to a register already reduced modulo 2^32 gives the same 32-bit result |
| KMain.ModShift | appendixB/kernel/main.c:141 | adding whole multiples of 2^32 does not change a 32-bit value |
| KMain.Targets | appendixB/kernel/main.c:304-308 | the slots listed are below n, in increasing order, and each holds a live system process that is not a kernel task |
| KMain.TargetsComplete | appendixB/kernel/main.c:304-308 | every live, non-kernel system process below n is listed |
| KMain.SignalKeepsTargets | appendixB/kernel/main.c:307-308 | sending a signal to slot x keeps every later slot's owner, system flag and emptiness, so the set of targets is unchanged |
| KMain.PrepareShutdown | appendixB/kernel/main.c:265-332 | on a panic the dump request is sent to TTY without blocking; when TTY takes it (SendVerdict OK) TTY is woken with it and enqueued by sched when no flag is left (SendDone), nobody is signalled and the shutdown flag and timer stay; otherwise exactly the live non-kernel system processes are signalled, in table order, SIGKSTOP has reached each of them (StopReached) when system processes own their privilege records (OwnPrivs), no slot's owner, emptiness or system flag changes, every slot not signalled and every record no signalled slot uses is unchanged (Untargeted), shutdown_started is set and the shutdown timer expires at uptime + HZ with the status as argument |
| KMain.RequestDumps | appendixB/kernel/main.c:282-287 | nb_send of the dump request from proc_ptr to TTY: mini_send's non-blocking verdict and outcome, with TTY's enqueue when it is woken (SendDone); the privilege records stay, and on a refusal nothing changes |
| KMain.StopAll | appendixB/kernel/main.c:304-331 | the targets are signalled as SignalAll says, every other slot and every record no target uses stay (Untargeted), then shutdown_started is set and the shutdown timer armed at uptime + HZ with the status |
| KMain.Arm | appendixB/kernel/main.c:312-331 | shutdown_started becomes 1 and the shutdown timer expires HZ ticks after the uptime with the status as its argument |
| KMain.DumpRequest | appendixB/kernel/main.c:283 | the message sent to TTY is an ordinary message of type PANIC_DUMPS |
| KMain.SignalAll | appendixB/kernel/main.c:304-309 | the slots signalled are exactly Targets of the table before the loop, SIGKSTOP has reached each of them under OwnPrivs, the targets are unchanged, and every slot not signalled and every record no signalled slot uses is as before the loop (Untargeted) |
| KMain.SignalSlot | appendixB/kernel/main.c:307-308 | slot x is signalled exactly when it was a target in the table the loop started from, the earlier ones keep SIGKSTOP, and Untargeted carries over with x listed when signalled |
| KMain.UntargetedStep | appendixB/kernel/main.c:304-309 | signalling one more slot through its own privilege record keeps every other slot and every record no signalled slot uses unchanged (Untargeted with the slot added) |
| KMain.StopStep | appendixB/kernel/main.c:307-308 | signalling a target adds it to the slots SIGKSTOP has reached and, under OwnPrivs, loses none of the earlier ones |
| KMain.SigKept | appendixB/kernel/system.c:311-329 | a signal sent to one slot keeps a signal that had reached another slot with another privilege record |
| BufArgs.StrTok | apue/17.4.c:17-22 | strtok skips white space from the resume point, gives the token's start or NULL at the end, puts one NUL at the token's end and resumes after it |
| BufArgs.TokenLoop | apue/17.4.c:22-26 | the loop collects every further token start in order and leaves a NUL after each token that white space follows |
| BufArgs.BufArgs | apue/17.4.c:12-39 | -1 when buf has no token, else what optfunc returns for the token count, the argument vector and the cut buffer |
| BufArgs.BufArgsSplit | apue/17.4.c:12-29 | -1 (None) exactly when buf has no token; otherwise argc is the number of tokens, argv their starts in order then NULL, and buf changes only by a NUL at the first white character after each token |
| BufArgs.StartsAreTokenStarts | apue/17.4.c:17-26 | the argv entries increase and are exactly the positions where a token starts |
| BufArgs.NoTokenIffAllWhite | apue/17.4.c:17-18 | buf_args refuses buf exactly when it is all white space |
| BufArgs.CutsFollowTokens | apue/17.4.c:17-26 | a NUL is written exactly at each white character that ends a token |
| BufArgs.TokenText | apue/17.4.c:21-25 | each argv string read from the changed buffer is exactly its token |
| BufArgs.SkipStops | apue/17.4.c:3 | the search for a token passes only WHITE characters (space, tab, newline) and stops at the first other character or the end |
| BufArgs.EndStops | apue/17.4.c:3 | a token runs over characters outside WHITE and stops at the first WHITE character or the end |
| BufArgs.TokenEndIsCut | apue/17.4.c:22 | the white character that ends a token is overwritten with NUL, unless the token ends the buffer |
| BufArgs.ReadStrUpTo | apue/17.4.c:31-36 | the string an argv pointer names runs up to the next NUL in the buffer |
| Clients.ClientTable.ClientAlloc | apue/17-27.c:8-21 | the table grows by NALLOC entries, all free, and keeps its old entries |
| Clients.ClientTable.SearchFree | apue/17-27.c:36-42 | the scan stops at the first free entry, or at the end of the table |
| Clients.ClientTable.ClientAdd | apue/17-27.c:27-48 | the client takes the first free entry, after growing a full table, and its index is returned |
| Clients.ClientTable.ClientDel | apue/17-27.c:51-63 | the first entry with the fd is freed; with no such entry nothing changes |
| Clients.AddSpec | apue/17-27.c:27-48 | the added entry is the first free one, or the first of NALLOC new ones when none was free; no other entry changes |
| Clients.GrowFirstFree | apue/17-27.c:44-47 | after a full table grows, the first free entry is the first new one, so the second search succeeds |
| Clients.AddCountsOne | apue/17-27.c:38-41 | client_add puts one more entry in use |
| Clients.DelCountsOne | apue/17-27.c:55-58 | a successful client_del puts one entry fewer in use |
| Clients.AddThenDel | apue/17-27.c:27-63 | deleting a just-added fd leaves the fds of the table as they were, up to growth |
| Clients.DelMissing | apue/17-27.c:55-62 | client_del finds nothing exactly when no entry holds the fd |
| Clients.FirstFree | apue/17-27.c:36-42 | the first free entry, or the table's size when none is free |
| Clients.FindFd | apue/17-27.c:55-58 | the first entry holding fd, or the table's size when none does |
| Clients.FirstFreeIsLeast | apue/17-27.c:36-42 | a free entry with no free entry before it is the one the search finds |
| Clients.FindFdIsLeast | apue/17-27.c:55-58 | an entry holding fd with none before it is the one the search finds |
| Clients.InUseUpdate | apue/17-27.c:38-41 | overwriting one entry changes the number in use only by whether the old and new entries are in use |
| DbCodec.ValueOfDigits | apue/db.c:629 | the decimal digits of n denote n |
| DbCodec.AtolPadded | apue/db.c:342 | atol of a number right-aligned in blanks gives the number |
| DbCodec.PtrRoundTrip | apue/db.c:623-635 | _db_writeptr accepts exactly 0..PTR_MAX, fills the 7-character field, and _db_readptr gives the value back |
| DbCodec.WritePtr | apue/db.c:623-630 | _db_writeptr accepts exactly 0..PTR_MAX and then writes a 7-character field without a minus sign |
| DbCodec.ReadPtr | apue/db.c:333-343 | _db_readptr reads the field with atol; a field without a minus sign never reads negative |
| DbCodec.Atol | apue/db.c:342 | atol gives a negative value only after a minus sign and a non-zero value only when some digit is present |
| DbCodec.BodyParses | apue/db.c:401-424 | the key, data offset and data length joined by ':' split back into the same three |
| DbCodec.SplitAt | apue/db.c:406-412 | a field without ':' followed by ':' and the rest is split by strchr at exactly that separator into the field and the rest |
| DbCodec.IdxRoundTrip | apue/db.c:352-426 | _db_readidx reads back what _db_writeidx wrote, whatever follows, and consumes exactly the record |
| DbCodec.WriteIdx | apue/db.c:571-590 | _db_writeidx accepts exactly a pointer in 0..PTR_MAX and a body of IDXLEN_MIN..IDXLEN_MAX characters; the record is the 7-character pointer field, the 4-character length field and then exactly the body key:datoff:datlen and a newline |
| DbCodec.Hash | apue/db.c:317-326 | the hash is the sum of each character times its 1-based index, modulo nhash |
| DbCodec.HashSumBound | apue/db.c:317-326 | for 7-bit characters the sum is at most 127 times the sum of the indexes |
| DbCodec.HashSumFitsLong | apue/db.c:317-326 | for 7-bit keys of up to 8000 characters the sum fits the 32-bit unsigned hash, so it never wraps |
| DbCodec.ChainOffLayout | apue/db.c:282 | each hash value has its own chain pointer inside the hash table, after the free-list pointer |
| DbCodec.InitialLayout | apue/db.c:164-176 | a created index file holds NHASH_DEF + 1 zero pointers and a newline |
| DbCodec.ReadIdx | apue/db.c:352-426 | a record is accepted only with a length between IDXLEN_MIN and IDXLEN_MAX that the text holds after the pointer and length fields |
| DbCodec.WriteIdxFails | apue/db.c:571-590 | _db_writeidx refuses exactly a pointer outside 0..PTR_MAX or a record length outside IDXLEN_MIN..IDXLEN_MAX |
| DbFile.SlotOffIsChainOff | apue/db.c:282-283 | a key's slot is at chainoff; slot 0 is the free-list pointer at FREE_OFF |
| DbFile.InitialGood | apue/db.c:162-176 | the created files keep the invariant with every list empty, and every pointer of the written index reads 0 |
| DbFile.SetPtrRead | apue/db.c:623-635 | a written pointer field reads back its value and no other field changes |
| DbFile.UnlinkOk | apue/db.c:778-797 | pointing a record's predecessor at its successor takes it off its list and keeps the other lists |
| DbFile.PushOk | apue/db.c:689 | putting a record that is on no list at the front of a chain keeps the list invariant |
| DbFile.DeletedIs | apue/db.c:469-530 | _db_dodelete's writes amount to unlinking the record and pushing it, blanked, on the free list |
| DbFile.DeleteLists | apue/db.c:469-530 | after _db_dodelete the record is off its chain and heads the free list |
| DbFile.DeleteGood | apue/db.c:469-530 | the deletion keeps the invariant; the record's key is blank and it points at the old free-list head |
| DbFile.SpaceAppend | apue/db.c:682-683 | records appended at the ends of both files keep the files back to back |
| DbFile.TiledNext | apue/db.c:352-372 | reading a record moves the reader to the next record in file order |
| DbFile.TiledStart | apue/db.c:812-826 | a rewound reader is at the first index record |
| DbLookup.KeyPos | apue/db.c:300-307 | the chain walk stops at the first record with the key, or at the end |
| DbLookup.FindInKeyPos | apue/db.c:300-311 | the walk's stopping place is the lookup's answer |
| DbLookup.LookupPushed | apue/db.c:689 | a record at the front of its chain is what its key finds; other keys find what they found |
| DbLookup.LookupRemoved | apue/db.c:520-527 | a record taken off its chain is no longer found; other keys find what they found |
| DbEffects.AppendGood | apue/db.c:682-690 | appending a new key keeps the invariant; the key finds the data and other keys are unchanged |
| DbEffects.AppendDatGood | apue/db.c:682 | a process that ends after the data record was appended leaves the invariant and every lookup as they were |
| DbEffects.AppendIdxGood | apue/db.c:683 | a process that ends after the index record was appended leaves the invariant and every lookup as they were |
| DbEffects.FreePos | apue/db.c:768-775 | the free-list walk stops at the first record with the key and data lengths |
| DbEffects.UnlinkFreeGood | apue/db.c:778-797 | taking a free record off the free list keeps the invariant |
| DbEffects.UnlinkFreeLookup | apue/db.c:778-797 | taking a free record off the free list changes no lookup |
| DbEffects.UnlinkFreeRecord | apue/db.c:778-797 | the record taken off keeps its key and lengths and is on no list; the chains are unchanged |
| DbEffects.ReuseGood | apue/db.c:697-699 | rewriting a record that is on no list for the new key keeps the invariant; the key finds the data and other keys are unchanged |
| DbEffects.ReuseReady | apue/db.c:677-699 | the free record found fits the rewrite and the index file keeps its size |
| DbEffects.ReuseStep | apue/db.c:675-699 | taking the free record off the free list and reusing it keeps the invariant; the key finds the data and other keys are unchanged |
| DbEffects.OverwriteGood | apue/db.c:734-739 | data of the same length written over the old keeps the invariant; the key finds the new data and other keys are unchanged |
| DbEffects.DeleteLookup | apue/db.c:447-462 | after the deletion the key finds nothing and other keys find what they found |
| DbEffects.DeleteClears | apue/db.c:714-727 | after a replace deletes the record, no record on the chain has the key, so the append keeps keys unique |
| DbEffects.DeleteReady | apue/db.c:469-530 | every write of _db_dodelete is accepted, the record keeps its length, and the file sizes stay |
| DbStore.PutPtr | apue/db.c:623-635 | a pointer write succeeds exactly for 0..PTR_MAX and then reads back |
| DbStore.PutDat | apue/db.c:536-564 | the data record lands at the end of the data file, or over the record at the given offset; every other data record and the index file are unchanged |
| DbStore.PutIdx | apue/db.c:571-617 | the index record lands at the end or in place, and the write fails exactly where _db_writeidx ends the process; every other index record, the chain heads and the data file are unchanged, and the index file grows by the record only when appended |
| DbStore.FindAndLock | apue/db.c:271-312 | the walk finds the first record on the key's chain with the key and the pointer that points at it, or reports none |
| DbStore.FreeWalk | apue/db.c:768-776 | the free-list walk stops at the first fitting record and remembers the pointer field that points at it, or at the end of the list |
| DbStore.FindFree | apue/db.c:754-805 | the first fitting free record, if any, is taken off the free list; otherwise nothing changes |
| DbStore.DoDelete | apue/db.c:469-530 | the writes of _db_dodelete give exactly the deleted files |
| DbStore.Append | apue/db.c:682-690 | the new record goes at the ends of the files and at the front of its chain; a failed write ends the process and leaves what was written |
| DbStore.Reuse | apue/db.c:697-699 | the writes over a reused record give exactly the reused files |
| DbStore.Create | apue/db.c:150-182 | created files keep the invariant, hold no key, and the reader is rewound |
| DbStore.Reopen | apue/db.c:180-181 | reopened files keep the invariant and the reader is rewound |
| DbStore.Fetch | apue/db.c:246-265 | db_fetch returns the data of the first record with the key on its chain, or NULL; the files do not change and the sequential reader's position is no longer known |
| DbStore.Delete | apue/db.c:447-462 | db_delete returns 0 and the key is gone if it was there, else -1 with the files unchanged; other keys are untouched and errno is kept |
| DbStore.StoreNew | apue/db.c:664-701 | a new key reuses a free record whose key and data lengths match, or is appended; then it finds the data and other keys are unchanged; the process ends exactly when no free record fits and _db_writeidx refuses the appended record (AppendFails) |
| DbStore.StoreOver | apue/db.c:709-740 | a present key's data is replaced in place when the lengths agree, else deleted and appended; the process ends exactly when the lengths differ and _db_writeidx refuses the appended record (AppendFails) |
| DbStore.StoreKey | apue/db.c:664-742 | for a key without NUL or the separator: DB_REPLACE of a missing key gives -1 with ENOENT and DB_INSERT of a present key gives 1, with nothing changed; on every other path (StoreAccepts) the result is 0 and the key finds the data, unless the process ends, which happens exactly when a new record must be appended (no free record of the lengths for a new key, or new data of another length) and _db_writeidx refuses it (StoreExits); other keys are unchanged; the reader's position is no longer known |
| DbStore.Store | apue/db.c:641-748 | for a key without NUL or the separator, a bad flag gives -1 with EINVAL and nothing else changes, a bad data length ends the process; otherwise the result is StoreKey's: 0 on every path db_store accepts unless it ends the process exactly as StoreExits says, -1/ENOENT and 1 on the two refusals; the invariant holds and other keys are unchanged |
| DbStore.NextNonBlank | apue/db.c:842-857 | the next record in file order whose key is not blank |
| DbStore.Rewind | apue/db.c:812-826 | the reader goes to just past the hash table's newline |
| DbStore.RewindValid | apue/db.c:812-826 | a rewound reader is at the first record in file order |
| DbStore.NextRec | apue/db.c:833-868 | db_nextrec gives the key and data of the next record with a non-blank key and moves the reader past it, or NULL with the reader at the end of the index file |
| PmProc.FlagsAreDistinctBits | appendixB/servers/pm/mproc.h:80-95 | every mp_flags value is one bit and no two share a bit, so the flags word is a set |
| PmProc.SChar | appendixB/servers/pm/forkexit.c:197 | the store into the char exit status keeps the value modulo 256 in -128..127, and keeps values already in range |
| PmProc.InUseCountUpdate | appendixB/servers/pm/forkexit.c:82 | changing one entry changes the number of entries in use only by whether that entry is in use before and after |
| PmProc.FreeSlotExists | appendixB/servers/pm/forkexit.c:76-78 | when fewer entries are in use than there are slots, some slot is free, so do_fork's search succeeds |
| PmHoles.Scan | appendixB/servers/pm/alloc.c:84-101 | the scan passes only holes below swap_base too short for the request and stops at the first hole at or above swap_base or long enough |
| PmHoles.AllocIsFirstFit | appendixB/servers/pm/alloc.c:81-104 | alloc_mem succeeds exactly when some hole below swap_base is long enough, and takes the first such hole in list order |
| PmHoles.AllocTakesBlock | appendixB/servers/pm/alloc.c:84-104 | the holes stay sorted and apart; the clicks handed out were free and are not any more, every other click keeps its state and the free total drops by the request; a failure returns NO_MEM and changes nothing |
| PmHoles.FreedIsCoalesced | appendixB/servers/pm/alloc.c:110-214 | linking the block in at its sorted place and merging from its predecessor gives the block joined with exactly the neighbours it touches |
| PmHoles.FreeReturnsBlock | appendixB/servers/pm/alloc.c:110-157 | freeing a block that is not free keeps the holes sorted and apart, makes free exactly the old free clicks plus the block, and adds its length to the free total |
| PmHoles.FreedCount | appendixB/servers/pm/alloc.c:126-131 | freeing takes at most one more hole entry |
| PmHoles.InitHolesOk | appendixB/servers/pm/alloc.c:243-248 | freeing the chunks from the last down leaves holes sorted and apart, free exactly where some chunk is, summing to the chunk sizes, no more than there are chunks |
| PmAlloc.AllocKeepsOk | appendixB/servers/pm/alloc.c:84-96 | alloc_mem keeps the hole list sorted with gaps |
| PmAlloc.FreeKeepsOk | appendixB/servers/pm/alloc.c:110-157 | free_mem keeps the hole list sorted with gaps |
| PmAlloc.HoleTable.DelSlot | appendixB/servers/pm/alloc.c:162-180 | the entry leaves the hole list at its position and heads the free-slot list; the blocks lose exactly that hole |
| PmAlloc.HoleTable.SetBlock | appendixB/servers/pm/alloc.c:88-90 | the hole at the position now holds the new block; list links and other holes are unchanged |
| PmAlloc.HoleTable.AbsorbNext | appendixB/servers/pm/alloc.c:198-204 | one merge step: a hole touching its successor absorbs it, else the successor becomes current, as Absorb specifies |
| PmAlloc.HoleTable.Merge | appendixB/servers/pm/alloc.c:185-214 | merge joins the hole with up to two successors that touch it, as MergeAt specifies |
| PmAlloc.HoleTable.FirstFit | appendixB/servers/pm/alloc.c:82-101 | the walk reports the first hole below swap_base that is long enough, and its predecessor entry whose link (or the list head) points at it, or that none is |
| PmAlloc.HoleTable.CutHole | appendixB/servers/pm/alloc.c:86-96 | the block's base is the hole's old base; the hole shrinks from below and its entry is released when empty |
| PmAlloc.HoleTable.AllocMem | appendixB/servers/pm/alloc.c:63-105 | the table stays valid and the result and new holes are exactly the first-fit allocation |
| PmAlloc.HoleTable.FindPlace | appendixB/servers/pm/alloc.c:147-151 | the walk stops after the last hole whose base is below the freed block's, so the next hole, if any, starts at or above it |
| PmAlloc.HoleTable.LinkFront | appendixB/servers/pm/alloc.c:138-141 | a free-slot entry holding the block becomes the head of the hole list |
| PmAlloc.HoleTable.LinkAfter | appendixB/servers/pm/alloc.c:154-155 | a free-slot entry holding the block is linked in after the given hole |
| PmAlloc.HoleTable.FreeMem | appendixB/servers/pm/alloc.c:110-157 | the table stays valid and the holes become exactly Freed of the old ones |
| PmAlloc.HoleTable.MemInit | appendixB/servers/pm/alloc.c:219-249 | every entry is on the free-slot list, the non-empty chunks are freed from the last down, and the total is the sum of their sizes |
| PmBreak.Adjust | appendixB/servers/pm/break.c:85-162 | the result is OK exactly when the stack test and the gap test pass; then the entry becomes the adjusted map, otherwise every change is undone; a new map is reported only on a change |
| PmBreak.AdjustKeepsApart | appendixB/servers/pm/break.c:119-142 | after an accepted adjustment the data has the asked length, the safety gap lies below the stack, sp lies in the stack, the stack top and the stack's physical offset stay |
| PmBreak.FinalTestRedundant | appendixB/servers/pm/break.c:146-148 | without wrap-around the final overlap test never fails after the gap test passed |
| PmBreak.AdjustIdempotent | appendixB/servers/pm/break.c:130-142 | adjusting twice with the same arguments equals adjusting once |
| PmBreak.CeilClicks | appendixB/servers/pm/break.c:69 | the click count is the least whose bytes cover the address |
| PmBreak.NewClicksAgree | appendixB/servers/pm/break.c:69 | the 32-bit computation gives the rounded-up count for addresses below 2^31 - CLICK_SIZE + 1 |
| PmBreak.Brk | appendixB/servers/pm/break.c:68-79 | the result is OK or ENOMEM; OK exactly when the new end is at least the data base and adjust accepts; the reply pointer is addr or -1; a failure changes only the reply pointer |
| PmBreak.DoBrk | appendixB/servers/pm/break.c:44-80 | the caller's entry and the result are what Brk gives for addr rounded up; no other entry changes |
| PmBreak.BrkCoversAddr | appendixB/servers/pm/break.c:69-78 | after a successful break the data segment ends at addr rounded up to a click, with the safety gap below the stack |
| PmBreak.NewClicksNearTop | appendixB/servers/pm/break.c:69 | for addr 0xFFFFF001 the 32-bit computation gives click 0 and the call succeeds with an empty data segment, where the rounded-up count is refused |
| PmBreak.NewClicks | appendixB/servers/pm/break.c:69 | as written: the address cast to a signed 32-bit long, rounded up and shifted, then cast back to an unsigned click count below 2^32 |
| PmForkExit.ChildLayout | appendixB/servers/pm/forkexit.c:83-100 | the child keeps the parent's virtual layout, has its data at the new base and the stack at the parent's distance above it, shares text only when separate, keeps only inheritable flags, and its image is exactly the clicks do_fork allocated |
| PmForkExit.WaitStatusRoundTrip | appendixB/servers/pm/forkexit.c:305 | the wait status carries the signal status's low byte and, in the next byte, the exit status modulo 256 |
| PmForkExit.CleanupOk | appendixB/servers/pm/forkexit.c:291-316 | cleaning up an entry in use keeps parents valid and leaves procs_in_use one lower and equal to the count |
| PmForkExit.ForkOk | appendixB/servers/pm/forkexit.c:77-88 | putting the child in the first free slot keeps parents valid and brings one more entry into use |
| PmForkExit.AccountedOk | appendixB/servers/pm/forkexit.c:170-181 | the accounting changes neither use, parents nor what the parent's wait test reads |
| PmForkExit.ReleasedOk | appendixB/servers/pm/forkexit.c:197-210 | storing the status and then cleaning up or zombifying keeps the table valid, one fewer in use exactly when the parent takes the child |
| PmForkExit.ToInitOk | appendixB/servers/pm/forkexit.c:216 | giving a child to INIT keeps the table valid |
| PmForkExit.DisinheritStep | appendixB/servers/pm/forkexit.c:213-220 | one round changes only this slot's parent, only to INIT for a child of the exiting process, and only this slot can leave use |
| PmForkExit.ReparentedComplete | appendixB/servers/pm/forkexit.c:213-220 | after the loop every child of the exiting process (other than INIT) belongs to INIT, no other parent changed and no entry came into use |
| PmForkExit.WaitOk | appendixB/servers/pm/forkexit.c:262-281 | reporting a stopped child or starting to wait changes neither use nor parents |
| PmForkExit.ExitTestMatchesWaitTest | appendixB/servers/pm/forkexit.c:199-202 | for positive pids and groups, pm_exit's test on the saved pid argument selects the same children as do_waitpid's scan |
| PmForkExit.ProcManager.Cleanup | appendixB/servers/pm/forkexit.c:291-316 | the waiting parent gets the wait status and the child's pid and stops waiting; the child's entry is released and procs_in_use drops by one |
| PmForkExit.ProcManager.DoFork | appendixB/servers/pm/forkexit.c:39-117 | EAGAIN exactly when the table is full or nearly full for a non-root caller; ENOMEM exactly when no hole fits the image; otherwise the new pid, the first free slot holds the child, the parent learns the slot and one more entry is in use |
| PmForkExit.ProcManager.ForkChild | appendixB/servers/pm/forkexit.c:76-116 | the child takes the first free slot, a copy of the parent adjusted as Child says, and the parent's reply names the slot |
| PmForkExit.ProcManager.PmExit | appendixB/servers/pm/forkexit.c:139-224 | the holes lose the image (text unless shared), the table becomes the accounted, released and disinherited one, SIGCHLD is due exactly when the parent does not take the child, and the hangup group is the session's |
| PmForkExit.ProcManager.DoPmExit | appendixB/servers/pm/forkexit.c:122-134 | the exit call runs pm_exit on the caller and sends no reply |
| PmForkExit.ProcManager.Account | appendixB/servers/pm/forkexit.c:170-181 | the parent gains the child's times and its children's; the child's pending reply is dropped |
| PmForkExit.ProcManager.FreeImage | appendixB/servers/pm/forkexit.c:186-194 | the text is freed unless shared, then the data and stack image from the data base to the stack top |
| PmForkExit.ProcManager.Release | appendixB/servers/pm/forkexit.c:197-210 | the exit status is stored as a char; a waiting parent whose test the child meets reaps it, otherwise it becomes IN_USE and ZOMBIE and SIGCHLD is due |
| PmForkExit.ProcManager.DisinheritAll | appendixB/servers/pm/forkexit.c:213-220 | every round of the loop is applied in slot order, as Reparented specifies |
| PmForkExit.ProcManager.DoWaitpid | appendixB/servers/pm/forkexit.c:229-286 | the first selected exited or stopped child is reaped (SUSPEND) or reported (its pid); with selected children but none ready: 0 under WNOHANG, else the caller waits (SUSPEND); with none: ECHILD and nothing changes |
| PmForkExit.ProcManager.FindChild | appendixB/servers/pm/forkexit.c:253-272 | the scan finds the first selected child that has exited or stopped with a signal, and counts a selected child exactly when one exists |

## Findings

| source | as written | input that shows it | evidently intended | confidence | as-written member | corrected member |
|---|---|---|---|---|---|---|
| appendixB/kernel/proc.c:303-307 | the deadlock test follows p_sendto from the destination and never compares the destination with the caller | a process that sends to itself | a send to oneself is refused with ELOCKED | not executed | KIpc.SelfSendCycle | KProc.Kernel.MiniSend |
| appendixB/kernel/proc.c:386-399 | the pending-notification scan examines only the lowest set bit of each chunk | notifications pending from CLOCK and SYSTEM, receive from SYSTEM | the notification from SYSTEM is delivered | not executed | KIpc.ChunkScanMissesPending | KProc.Kernel.PendingFrom |
| appendixB/kernel/proc.c:165-167 | ANY passes the source/destination check for every call | SEND or NOTIFY to ANY | ANY is accepted only as a source | not executed | KIpc.AnyDestinationLeavesTable | KIpc.Screen |
| appendixB/servers/pm/break.c:69 | the new break is rounded up to clicks in 32-bit signed arithmetic | addr 0xFFFFF001 gives click 0 | the rounded click count of the full address, which is refused | not executed | PmBreak.NewClicksNearTop | PmBreak.DoBrk |
| appendixB/kernel/system/do_fork.c:48 | the structure copy also copies the parent's caller queue | fork of a process that has senders queued | the child does not inherit the parent's senders: none of them is queued to send to the child | not executed | KFork.ForkAliasBreaksCallers | KFork.DoFork |
| appendixB/kernel/i8259.c:101-116 | a new hook's id bit is the length of the chain | put A, put B, remove A, put C: C and B share an id | each hook on a line has its own id bit | not executed | KIrq.AsWrittenIdClash | KIrq.IrqTable.PutHandler |
| appendixB/kernel/system/do_irqctl.c:45-55 | only the upper bound of the hook index is checked | IRQ_HOOK_ID 0 gives index -1 | hook ids 1 .. NR_IRQ_HOOKS only | not executed | KIrq.HookZeroEscapes | KIrq.IrqTable.HookRequest |
| appendixB/kernel/system.c:244-249 | the ENOSPC test reads the word after the last privilege record | all records bound and that word equal to NONE | ENOSPC when no record is free | not executed | KSystem.GetPrivOverrun | KSystem.GetPriv |
| appendixB/kernel/system.c:437-455 | the range end of umap_remote is a 32-bit sum | 2 bytes at 0xFFFFFFFF in a 4 KiB far segment | ranges that do not fit the segment are refused | not executed | KMem.RemoteWrapEscapes | KMem.UmapRemoteInSegment |
| appendixB/kernel/system.c:460-484 | the range end of umap_bios is a 32-bit sum | 32 bytes at 0xFFFFFFF0 | only ranges inside the BIOS areas are accepted | not executed | KMem.BiosWrapEscapes | KMem.UmapBiosAreas |
| appendixB/kernel/system/do_vcopy.c:53-64 | a negative request count passes the length test | nr_req = -0x40000000 + 100 copies 2800 bytes into a 448-byte buffer | counts 0 .. VCOPY_VEC_SIZE only | not executed | KMem.NegativeVecSizeOverruns | KMem.VecSizeOkFits |
| appendixB/kernel/system/do_vcopy.c:73-76 | the process numbers of the requests are not checked | a LOCAL_SEG request for process 1000 | each address is checked as do_copy checks it | not executed | KMem.VcopyLetsBadProcThrough | KMem.DoVcopy |
| appendixB/kernel/system/do_trace.c:152-156 | T_RESUME enqueues the process when its stop flag is clear | resuming a runnable process that is not at the head of its queue | only a process made runnable by the resume is enqueued | not executed | KTrace.ResumeRequeueCycles | KTrace.DoTrace |

## Left out
- Process manager messages to the kernel and the file system (sys_newmap, sys_fork, sys_exit, sys_abscopy, tell_fs) are not modelled: they are calls into other servers; the copy of the parent's image and the panic when it fails are left out with them.
- get_stack_ptr, get_free_pid, sys_times and find_share are inputs: the stack pointer, the new pid, the exited process's times and whether its text is shared are parameters of DoBrk, DoFork and PmExit; the panic when the stack pointer cannot be fetched is not modelled.
- set_alarm at exit, sig_proc(SIGCHLD) and check_sig(SIGHUP) are not modelled as calls: PmExit returns whether SIGCHLD is due and which process group gets SIGHUP.
- setreply's swapping in of a swapped-out process is not modelled (servers/pm/main.c is not part of this model); SetReply only records the result and the pending-reply flag.
- PmForkExit.ProcManager.PmExit: free_mem's "hole table full" panic and freeing memory that is already free are excluded by the precondition ExitFreeOk rather than modelled.
- PmAlloc.HoleTable.FreeMem: the "hole table full" panic is a precondition (a slot is left unless nothing is freed), and freeing free memory, which the C code does not check, is excluded by Returnable.
- PmBreak.Adjust and PmBreak.DoBrk require the data and stack maps to lie inside the 32-bit click address space (MapsOk), which the C types guarantee.
- Times (clock_t) are unbounded integers; their overflow is not modelled.
- reply_res2 and procnr share storage in the C reply message; the model keeps them as separate fields.
- KClock.Clock.DoClocktick: the precondition that a process whose quantum runs out while preemptible is runnable and has an intact stack guard is assumed of the caller; the C code does not check it.
- KClock.Clock.DoClocktick: when alarms fire, the scheduler state and the table are stated per alarm (FireAlarm's NotifyDone, giving NotifyReached for each owner) rather than as one composed state; what is promised after the loop is that each owner was reached, that the requeued process keeps its entry and that the idle process is kept.
- KClock.Clock.ExpireAfterRequeue: the composed scheduler state after the due alarms is not stated, for the same reason as DoClocktick; each alarm's step is exact in FireAlarm.
- KClock.Clock.ExpireTimers: the composed scheduler state after all alarms is not stated; each owner reached (NotifyReached) and the list left are.
- KClock.RunDue: the composed scheduler state after all alarms is not stated; each alarm's step is exact in FireAlarm.
- KMain.SignalAll: each target's entry, record and scheduler effect are those of send_sig (SendSig's SigSent) one step at a time; the loop states the slots signalled, SIGKSTOP reached, and the Untargeted frame, not the composed ready queues.
- KMain.SignalSlot: its step is SendSig's; it does not repeat SigSent in its own contract, only Untargeted and the reached signal.
- KMain.StopAll: as SignalAll, the composed ready queues after the loop are not stated.
- KMain.PrepareShutdown: when the processes are signalled, the composed ready queues are not stated, as for SignalAll; the dump path is exact (SendDone).
- KMain.PrepareShutdown: that SIGKSTOP has reached every signalled process is stated under OwnPrivs, i.e. each system process owns its privilege record, as get_priv gives it a free one. The kernel invariant of the model does not carry that fact, and without it a later send_sig to a process sharing the record could clear the pending signal.
- KMain.PrepareShutdown: shutdown_timer is kept as a record of its own (expiry and argument) rather than on clock_timers beside the processes' alarms, and shutdown(), the watchdog it runs, is not part of this model.
- KMain.PrepareShutdown: nb_send is not part of this model; it is taken as lock_send's call mini_send(proc_ptr, dst, m, NON_BLOCKING) (appendixB/kernel/proc.c:762-771), and the dump message's fields other than m_type, which the C code leaves unset, are modelled as zero. HZ (60) and PANIC_DUMPS (97) take the values of the MINIX headers, which are not part of this model.
- KFork.DoFork: senders that were queued on the child's slot before the fork stay queued there, because clear_proc removes only the exiting process from other queues; the model promises only that none of the parent's senders are on the child's queue.
- KIrq.IrqTable.HookRequest: enable_irq and disable_irq live in the assembly library, which is not part of this model; their effect on irq_actids is modelled, while the unmasking and masking of the line in the 8259 controller (and disable_irq's already-disabled answer, which do_irqctl ignores) are hardware port I/O and left out.
- KIrq.IrqTable.IntrHandle: the cycle counter values that get_randomness reads are a parameter, one sample per hook on the chain.
- KProc.Kernel.SysCall: for SENDREC the state between mini_send and mini_receive is a ghost result (mid), which the ensures relate to the states before and after.
- KProc.Kernel.Dequeue: the stack-guard panic of dequeue is a precondition (GuardOk) rather than modelled.
- Start.Cstart: a missing "video" parameter counts as neither EGA nor VGA; the C code passes a null pointer to strcmp there.
- BufArgs.BufArgs: optfunc is a pure function of argc, argv and the cut buffer; what it does beyond its return value is not modelled, and neither is the err_sys exit when malloc or realloc of argv fails (this buf_args has no argument-count limit).
- BufArgs.BufArgsSplit: returns the argument count and vector instead of calling optfunc; BufArgs.BufArgs makes the call.
- Clients.ClientTable.ClientAlloc: client_alloc does not check the pointer malloc or realloc returns; the model's allocation always succeeds, so the write through a NULL client array that follows a failed allocation is not modelled.
- DbCodec.Hash: characters are unsigned and the sum is unbounded; HashSumFitsLong shows that for 7-bit keys of up to 8000 characters the 32-bit unsigned sum does not wrap.
- DbStore.Fetch: the index file offset it leaves behind is not followed; the sequential reader's position becomes unknown (cursor None).
- DbStore.Delete: the index file offset it leaves behind is not followed; the sequential reader's position becomes unknown (cursor None).
- DbStore.StoreKey: the index file offset it leaves behind is not followed; the sequential reader's position becomes unknown (cursor None).
- DbStore.Store: the index file offset it leaves behind is not followed; the sequential reader's position becomes unknown (cursor None).
- DbStore.StoreKey: keys that contain the separator ':' are excluded by the precondition GoodKey, as for DbStore.Store below.
- DbStore.Store: keys that contain the separator ':' are excluded by the precondition GoodKey. db_store writes such a key, but every later _db_readidx of that record ends the process with err_dump (too many separators), which the model's file invariant does not describe.
- DbStore.NextRec: requires a reader whose position is known, that is, one after db_rewind, db_open or db_nextrec; db_nextrec after a fetch, store or delete reads from wherever that call left the offset, which the model does not follow.
- Record and file locks (readw_lock, writew_lock, un_lock) and the cnt_* statistics counters of the database library are not modelled: locks matter only between processes and the counters are not read by any operation.
- Headers that define the constants (<minix/com.h>, <errno.h>) are not part of this model; their MINIX 3.1.0 i386 values are written out in kconst.dfy.
- DbCodec.Atol: overflow of the C long is not modelled; the values the library writes fit in the field widths it uses.
