/**
 * Constants and predicate macros of the MINIX 3 kernel: process numbers,
 * runtime flags and scheduling queues (kernel/proc.h), privilege flags
 * (kernel/priv.h), the psw mask and the privilege-id mapping
 * (kernel/const.h), and the IPC call numbers and check masks
 * (kernel/ipc.h).  Values that live in headers outside this model
 * (<minix/com.h>, <errno.h>) are those of MINIX 3.1.0 on i386.
 */
module KConst {

  /** An option type for values that may be absent (a NIL pointer, a NULL return). */
  datatype Option<T> = None | Some(value: T)

  /** The C string terminator. */
  const NUL: char := '\0'

  // ---------------------------------------------------------------------
  // Machine words

  /** A C `int` on i386. */
  type int32 = x: int | -0x8000_0000 <= x < 0x8000_0000

  // ---------------------------------------------------------------------
  // Process numbers (<minix/com.h>, <minix/config.h>)

  const NR_TASKS: int := 4
  const NR_PROCS: int := 64
  const NR_SYS_PROCS: int := 32
  /** Slots in the process table: kernel tasks first, then user processes. */
  const NR_SLOTS: int := NR_TASKS + NR_PROCS

  const IDLE: int := -4
  const CLOCK: int := -3
  const SYSTEM: int := -2
  const HARDWARE: int := -1
  const KERNEL: int := -1

  const PM_PROC_NR: int := 0
  const FS_PROC_NR: int := 1
  const RS_PROC_NR: int := 2
  const MEM_PROC_NR: int := 3
  const LOG_PROC_NR: int := 4
  const TTY_PROC_NR: int := 5
  const DRVR_PROC_NR: int := 6
  const INIT_PROC_NR: int := 7
  const NR_BOOT_PROCS: int := NR_TASKS + INIT_PROC_NR + 1

  const ANY: int := 0x7ace
  const NONE: int := 0x6ace
  const SELF: int := 0x8ace

  // ---------------------------------------------------------------------
  // Error codes (<errno.h>, kernel sign convention)

  const OK: int := 0
  const EPERM: int := -1
  const ENOENT: int := -2
  const EIO: int := -5
  const E2BIG: int := -7
  const ECHILD: int := -10
  const EAGAIN: int := -11
  const ENOMEM: int := -12
  const EFAULT: int := -14
  const EINVAL: int := -22
  const ENOSPC: int := -28
  const EDOM: int := -33
  const ELOCKED: int := -101
  const EBADCALL: int := -102
  const EBADSRCDST: int := -103
  const ECALLDENIED: int := -104
  const EDEADDST: int := -105
  const ENOTREADY: int := -106
  const EBADREQUEST: int := -107
  const EDONTREPLY: int := -201

  // ---------------------------------------------------------------------
  // Runtime flags (p_rts_flags, a char)

  const SLOT_FREE: bv8 := 0x01
  const NO_MAP: bv8 := 0x02
  const SENDING: bv8 := 0x04
  const RECEIVING: bv8 := 0x08
  const SIGNALED: bv8 := 0x10
  const SIG_PENDING: bv8 := 0x20
  const P_STOP: bv8 := 0x40
  const NO_PRIV: bv8 := 0x80

  /** The eight runtime flags in declaration order. */
  const RtsFlags: seq<bv8> := [SLOT_FREE, NO_MAP, SENDING, RECEIVING, SIGNALED, SIG_PENDING, P_STOP, NO_PRIV]

  /** A process is runnable iff no runtime flag is set. */
  predicate Runnable(flags: bv8) { flags == 0 }

  /** The flags are eight distinct single bits that together fill the char. */
  lemma RtsFlagsAreDistinctBits()
    ensures |RtsFlags| == 8
    ensures forall i :: 0 <= i < 8 ==> RtsFlags[i] == 1 << i
    ensures forall i, j :: 0 <= i < j < 8 ==> RtsFlags[i] & RtsFlags[j] == 0
  {
    forall i | 0 <= i < 8 ensures RtsFlags[i] == 1 << i {
      if i == 0 {} else if i == 1 {} else if i == 2 {} else if i == 3 {}
      else if i == 4 {} else if i == 5 {} else if i == 6 {} else {}
    }
  }

  // ---------------------------------------------------------------------
  // Scheduling queues

  const NR_SCHED_QUEUES: int := 16
  const TASK_Q: int := 0
  const MAX_USER_Q: int := 0
  const USER_Q: int := 7
  const MIN_USER_Q: int := 14
  const IDLE_Q: int := 15

  lemma QueueOrdering()
    ensures NR_SCHED_QUEUES == IDLE_Q + 1
    ensures TASK_Q == MAX_USER_Q == 0 < USER_Q < MIN_USER_Q < IDLE_Q
  {
  }

  // ---------------------------------------------------------------------
  // Process-number predicates

  /**
   * isokprocn: the C macro adds NR_TASKS, casts to unsigned and compares;
   * a negative sum wraps to a huge unsigned value and is rejected.
   */
  function IsOkProcN(n: int32): (r: bool)
    ensures r <==> -NR_TASKS <= n < NR_PROCS
  {
    var u := (n + NR_TASKS) % 0x1_0000_0000;
    u < NR_PROCS + NR_TASKS
  }

  predicate IsKernelN(n: int) { n < 0 }
  predicate IsUserN(n: int) { n >= 0 }

  /** Every process number is either a kernel task or a user process, never both. */
  lemma KernelUserPartition(n: int)
    ensures IsKernelN(n) != IsUserN(n)
  {
  }

  /** isemptyp: the flags equal SLOT_FREE exactly. */
  function IsEmptyP(flags: bv8): (r: bool)
    ensures r <==> flags & SLOT_FREE != 0 && flags & !SLOT_FREE == 0
  {
    flags == SLOT_FREE
  }

  /** A slot that carries SLOT_FREE together with another flag is not empty. */
  lemma SlotFreeIsNotEnough()
    ensures (SLOT_FREE | NO_MAP) & SLOT_FREE != 0 && !IsEmptyP(SLOT_FREE | NO_MAP)
  {
  }

  /** proc_addr(n): the table slot of process number n. */
  function ProcSlot(n: int): (i: int)
    requires -NR_TASKS <= n < NR_PROCS
    ensures 0 <= i < NR_SLOTS
    ensures i < NR_TASKS <==> IsKernelN(n)
  {
    n + NR_TASKS
  }

  /** The process number stored in slot i by the boot initialisation. */
  function SlotNr(i: int): (n: int)
    requires 0 <= i < NR_SLOTS
    ensures -NR_TASKS <= n < NR_PROCS
  {
    i - NR_TASKS
  }

  /** proc_addr and proc_nr are mutually inverse on initialised slots. */
  lemma ProcSlotRoundTrip(n: int, i: int)
    requires -NR_TASKS <= n < NR_PROCS && 0 <= i < NR_SLOTS
    ensures SlotNr(ProcSlot(n)) == n
    ensures ProcSlot(SlotNr(i)) == i
  {
  }

  // ---------------------------------------------------------------------
  // Privilege flags (s_flags, a short) and the privilege table

  const PREEMPTIBLE: bv16 := 0x01
  const BILLABLE: bv16 := 0x04
  const SYS_PROC: bv16 := 0x10
  const SENDREC_BUSY: bv16 := 0x20

  lemma PrivFlagsAreDistinctBits()
    ensures PREEMPTIBLE & BILLABLE == 0 && PREEMPTIBLE & SYS_PROC == 0 && PREEMPTIBLE & SENDREC_BUSY == 0
    ensures BILLABLE & SYS_PROC == 0 && BILLABLE & SENDREC_BUSY == 0 && SYS_PROC & SENDREC_BUSY == 0
  {
  }

  /** The privilege record shared by every ordinary user process. */
  const USER_PRIV_ID: int := 0

  /** STACK_GUARD, chosen by the size of reg_t in bytes. */
  function StackGuard(regBytes: int): (g: bv32)
    ensures regBytes == 2 ==> g == 0xBEEF
    ensures regBytes != 2 ==> g == 0xDEAD_BEEF
  {
    if regBytes == 2 then 0xBEEF else 0xDEAD_BEEF
  }

  /** On i386 reg_t is an unsigned int of four bytes. */
  const REG_BYTES: int := 4
  const STACK_GUARD: bv32 := 0xDEAD_BEEF

  /** The boot image fits in the privilege table (priv.h's compile-time check). */
  lemma BootProcsFitPrivTable()
    ensures NR_BOOT_PROCS <= NR_SYS_PROCS
    ensures StackGuard(REG_BYTES) == STACK_GUARD
  {
  }

  /** s_nr_to_id: the privilege id of a boot process; id 0 is the users' record. */
  function SNrToId(n: int): (id: int)
    requires n >= -NR_TASKS
    ensures id >= 1 && id != USER_PRIV_ID
    ensures id - 1 - NR_TASKS == n
  {
    NR_TASKS + n + 1
  }

  // ---------------------------------------------------------------------
  // Processor status word

  const INIT_PSW: bv32 := 0x0200
  const INIT_TASK_PSW: bv32 := 0x1200
  const TRACEBIT: bv32 := 0x0100
  /** The psw bits a process may set itself. */
  const PSW_USER_MASK: bv32 := 0xCD5

  /** SETPSW: takes the masked bits from `newPsw`, keeps every other bit of `psw`. */
  function SetPsw(psw: bv32, newPsw: bv32): (r: bv32)
    ensures r & PSW_USER_MASK == newPsw & PSW_USER_MASK
    ensures r & !PSW_USER_MASK == psw & !PSW_USER_MASK
  {
    (psw & !PSW_USER_MASK) | (newPsw & PSW_USER_MASK)
  }

  /** SETPSW cannot set or clear the trace bit, which lies outside the mask. */
  lemma SetPswKeepsTraceBit(psw: bv32, newPsw: bv32)
    ensures SetPsw(psw, newPsw) & TRACEBIT == psw & TRACEBIT
  {
    assert TRACEBIT & PSW_USER_MASK == 0;
    assert TRACEBIT == TRACEBIT & !PSW_USER_MASK;
  }

  // ---------------------------------------------------------------------
  // IPC call numbers (kernel/ipc.h)

  const SYSCALL_FUNC: bv32 := 0x0F
  const SYSCALL_FLAGS: bv32 := 0xF0
  const NON_BLOCKING: bv32 := 0x10

  const SEND: bv32 := 1
  const RECEIVE: bv32 := 2
  const SENDREC: bv32 := 3
  const NOTIFY: bv32 := 4
  const ECHO: bv32 := 8

  const CHECK_PTR: bv32 := 0x0B
  const CHECK_DST: bv32 := 0x05
  const CHECK_SRC: bv32 := 0x02

  /** The function field of a trap number. */
  function CallFunction(callNr: bv32): (f: bv32)
    ensures f <= 0x0F
  {
    callNr & SYSCALL_FUNC
  }

  /** The flags field of a trap number. */
  function CallFlags(callNr: bv32): (f: bv32)
    ensures f & SYSCALL_FUNC == 0
  {
    callNr & SYSCALL_FLAGS
  }

  /** The function and flag fields are disjoint and together make up the low byte. */
  lemma CallFieldsPartitionLowByte(callNr: bv32)
    ensures CallFunction(callNr) & CallFlags(callNr) == 0
    ensures CallFunction(callNr) | CallFlags(callNr) == callNr & 0xFF
    ensures NON_BLOCKING & SYSCALL_FLAGS == NON_BLOCKING && NON_BLOCKING & SYSCALL_FUNC == 0
  {
  }

  lemma SendrecIsSendAndReceive()
    ensures SENDREC == SEND | RECEIVE && SEND & RECEIVE == 0
  {
  }

  /** The five call functions known to sys_call. */
  const KnownCalls: set<bv32> := {SEND, RECEIVE, SENDREC, NOTIFY, ECHO}

  /** The message-pointer check applies to SEND, RECEIVE, SENDREC and ECHO, not NOTIFY. */
  lemma CheckPtrSelects()
    ensures forall f :: f in KnownCalls ==> (f & CHECK_PTR != 0 <==> f != NOTIFY)
  {
  }

  /** The destination check applies to SEND, SENDREC and NOTIFY, not RECEIVE or ECHO. */
  lemma CheckDstSelects()
    ensures forall f :: f in KnownCalls ==> (f & CHECK_DST != 0 <==> f in {SEND, SENDREC, NOTIFY})
  {
  }

  /** The source check applies exactly to RECEIVE and SENDREC. */
  lemma CheckSrcSelects()
    ensures forall f :: f in KnownCalls ==> (f & CHECK_SRC != 0 <==> f in {RECEIVE, SENDREC})
  {
  }

  // ---------------------------------------------------------------------
  // Kernel call numbers (<minix/com.h>)

  const KERNEL_CALL: int := 0x600
  const SYS_FORK: int := 0
  const SYS_EXEC: int := 1
  const SYS_EXIT: int := 2
  const SYS_NICE: int := 3
  const SYS_PRIVCTL: int := 4
  const SYS_TRACE: int := 5
  const SYS_KILL: int := 6
  const SYS_GETKSIG: int := 7
  const SYS_ENDKSIG: int := 8
  const SYS_SIGSEND: int := 9
  const SYS_SIGRETURN: int := 10
  const SYS_NEWMAP: int := 11
  const SYS_SEGCTL: int := 12
  const SYS_MEMSET: int := 13
  const SYS_UMAP: int := 14
  const SYS_VIRCOPY: int := 15
  const SYS_PHYSCOPY: int := 16
  const SYS_VIRVCOPY: int := 17
  const SYS_PHYSVCOPY: int := 18
  const SYS_IRQCTL: int := 19
  const SYS_INT86: int := 20
  const SYS_DEVIO: int := 21
  const SYS_SDEVIO: int := 22
  const SYS_VDEVIO: int := 23
  const SYS_SETALARM: int := 24
  const SYS_TIMES: int := 25
  const SYS_GETINFO: int := 26
  const SYS_ABORT: int := 27
  /** Kernel calls are numbered KERNEL_CALL + 0 .. KERNEL_CALL + NR_SYS_CALLS - 1. */
  const NR_SYS_CALLS: int := 28

  // ---------------------------------------------------------------------
  // Signals (<signal.h>)

  const SIGKILL: int := 9
  const SIGALRM: int := 14
  const SIGCHLD: int := 17
  const SIGKMESS: int := 18
  const SIGKSIG: int := 19
  const SIGKSTOP: int := 20
  const NSIG: int := 20

  /** The shutdown status that asks for the panic dumps (the system headers' RBT_PANIC). */
  const RBT_PANIC: int := 2

  // ---------------------------------------------------------------------
  // Memory clicks

  const CLICK_SHIFT: int := 12
  const CLICK_SIZE: int := 4096
  /** Segment indices of a memory map: text, data, stack. */
  const T: int := 0
  const D: int := 1
  const S: int := 2
  const NR_LOCAL_SEGS: int := 3
  /** Remote (far) memory segments a system process may hold. */
  const NR_REMOTE_SEGS: int := 3

  /** struct mem_map: one segment of a process's memory, in clicks. */
  datatype MemMap = MemMap(memVir: nat, memPhys: nat, memLen: nat)
}
