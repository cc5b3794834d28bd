/**
 * The boot image table of kernel/table.c: one entry per program that is
 * part of the boot image, kernel tasks first, with its flags, quantum,
 * scheduling queue, stack size, trap mask, send mask and kernel-call mask.
 */
module BootTable {
  import opened KConst
  import opened Bitmap

  /** struct boot_image, without the initial program counter. */
  datatype BootImage = BootImage(
    procNr: int,
    flags: bv16,
    quantum: nat,
    priority: nat,
    stkSize: nat,
    trapMask: bv16,
    ipcTo: bv16,
    callMask: bv32,
    name: string)

  /** sizeof(char *) on i386. */
  const PTR_BYTES: nat := 4
  const NO_STACK: nat := 0
  const SMALL_STACK: nat := 128 * PTR_BYTES
  const IDL_S: nat := SMALL_STACK
  const HRD_S: nat := NO_STACK
  const TSK_S: nat := SMALL_STACK
  /** The stack space shared by the kernel tasks. */
  const TOT_STACK_SPACE: nat := IDL_S + HRD_S + 2 * TSK_S

  // Process-type flags.
  const IDL_F: bv16 := SYS_PROC | PREEMPTIBLE | BILLABLE
  const TSK_F: bv16 := SYS_PROC
  const SRV_F: bv16 := SYS_PROC | PREEMPTIBLE
  const USR_F: bv16 := BILLABLE | PREEMPTIBLE

  /** `1 << n` in a short, for trap numbers. */
  function TrapBit(n: bv32): (m: bv16)
    requires n < 16
  {
    Bit(n as bv16)
  }

  // Trap masks: which of the IPC traps a process may make.
  const TSK_T: bv16 := 0x0004   // 1 << RECEIVE
  const SRV_T: bv16 := 0xFFFF   // ~0
  const USR_T: bv16 := 0x0108   // (1 << SENDREC) | (1 << ECHO)

  /** s(n): the send-mask bit of boot process n, at its privilege id. */
  function SendBit(n: int): (m: bv16)
    requires -NR_TASKS <= n <= INIT_PROC_NR
  {
    Bit(ShiftCount(SNrToId(n)))
  }

  // Send masks, copied into chunk 0 of each boot process's s_ipc_to.
  const SRV_M: bv16 := 0xFFFF
  const SYS_M: bv16 := 0xFFFF
  const USR_M: bv16 := 0x00E0   // s(PM_PROC_NR) | s(FS_PROC_NR) | s(RS_PROC_NR)
  const DRV_M: bv16 := 0x06EC   // USR_M | s(SYSTEM) | s(CLOCK) | s(LOG_PROC_NR) | s(TTY_PROC_NR)

  /** c(n): the call-mask bit of kernel call KERNEL_CALL + n, spelt out; CallBitIsShift ties it to `1 << n`. */
  function CallBit(n: int): (m: bv32)
    requires 0 <= n < 32
  {
    if n < 16 then Bit(ShiftCount(n)) as bv32 else (Bit(ShiftCount(n - 16)) as bv32) << 16
  }

  lemma CallBitIsShift(n: int)
    requires 0 <= n < 32
    ensures CallBit(n) == (1 as bv32) << (n as bv32)
  {
    if n < 8 {
      if n == 0 {} else if n == 1 {} else if n == 2 {} else if n == 3 {}
      else if n == 4 {} else if n == 5 {} else if n == 6 {} else {}
    } else if n < 16 {
      if n == 8 {} else if n == 9 {} else if n == 10 {} else if n == 11 {}
      else if n == 12 {} else if n == 13 {} else if n == 14 {} else {}
    } else if n < 24 {
      if n == 16 {} else if n == 17 {} else if n == 18 {} else if n == 19 {}
      else if n == 20 {} else if n == 21 {} else if n == 22 {} else {}
    } else {
      if n == 24 {} else if n == 25 {} else if n == 26 {} else if n == 27 {}
      else if n == 28 {} else if n == 29 {} else if n == 30 {} else {}
    }
  }

  // Kernel-call masks.
  const RS_C: bv32 := 0xFFFF_FFFF
  const PM_C: bv32 := 0xFF07_FFFF   // ~(c(SYS_DEVIO) | c(SYS_SDEVIO) | c(SYS_VDEVIO) | c(SYS_IRQCTL) | c(SYS_INT86))
  const FS_C: bv32 := 0x0702_C044   // KILL VIRCOPY VIRVCOPY UMAP GETINFO EXIT TIMES SETALARM
  const DRV_C: bv32 := 0x07FA_D044  // FS_C | SEGCTL IRQCTL INT86 DEVIO VDEVIO SDEVIO
  const MEM_C: bv32 := 0x07FF_D044  // DRV_C | PHYSCOPY PHYSVCOPY

  /** The boot image: kernel tasks, then the servers and drivers, then INIT. */
  const Image: seq<BootImage> := [
    BootImage(IDLE,          IDL_F,  8, IDLE_Q, IDL_S, 0,     0,     0,     "IDLE"),
    BootImage(CLOCK,         TSK_F, 64, TASK_Q, TSK_S, TSK_T, 0,     0,     "CLOCK"),
    BootImage(SYSTEM,        TSK_F, 64, TASK_Q, TSK_S, TSK_T, 0,     0,     "SYSTEM"),
    BootImage(HARDWARE,      TSK_F, 64, TASK_Q, HRD_S, 0,     0,     0,     "KERNEL"),
    BootImage(PM_PROC_NR,    SRV_F, 32, 3,      0,     SRV_T, SRV_M, PM_C,  "pm"),
    BootImage(FS_PROC_NR,    SRV_F, 32, 4,      0,     SRV_T, SRV_M, FS_C,  "fs"),
    BootImage(RS_PROC_NR,    SRV_F,  4, 3,      0,     SRV_T, SYS_M, RS_C,  "rs"),
    BootImage(TTY_PROC_NR,   SRV_F,  4, 1,      0,     SRV_T, SYS_M, DRV_C, "tty"),
    BootImage(MEM_PROC_NR,   SRV_F,  4, 2,      0,     SRV_T, DRV_M, MEM_C, "memory"),
    BootImage(LOG_PROC_NR,   SRV_F,  4, 2,      0,     SRV_T, SYS_M, DRV_C, "log"),
    BootImage(DRVR_PROC_NR,  SRV_F,  4, 2,      0,     SRV_T, SYS_M, DRV_C, "driver"),
    BootImage(INIT_PROC_NR,  USR_F,  8, USER_Q, 0,     USR_T, USR_M, 0,     "init")
  ]

  /**
   * The two compile-time checks at the end of table.c: one entry per boot
   * process, and one chunk holds the send bit of every boot process.
   */
  lemma ImageSizeChecks()
    ensures |Image| == NR_BOOT_PROCS
    ensures BITCHUNK_BITS > NR_BOOT_PROCS - 1
    ensures forall i :: 0 <= i < |Image| ==> -NR_TASKS <= Image[i].procNr <= INIT_PROC_NR
    ensures forall i :: 0 <= i < |Image| ==> SNrToId(Image[i].procNr) < BITCHUNK_BITS
  {
  }

  /** Kernel tasks come first: entry i of the first NR_TASKS is task i - NR_TASKS. */
  lemma KernelTasksFirst()
    ensures forall i :: 0 <= i < |Image| ==> (IsKernelN(Image[i].procNr) <==> i < NR_TASKS)
    ensures forall i :: 0 <= i < NR_TASKS ==> Image[i].procNr == i - NR_TASKS
  {
  }

  /** Only IDLE sits in the idle queue, and IDLE is a preemptible, billable system process. */
  lemma OnlyIdleAtIdleQueue()
    ensures forall i :: 0 <= i < |Image| ==> (Image[i].priority == IDLE_Q <==> Image[i].procNr == IDLE)
    ensures Image[0].procNr == IDLE && Image[0].flags == SYS_PROC | PREEMPTIBLE | BILLABLE
  {
  }

  /** CLOCK, SYSTEM and HARDWARE are system processes that are neither preemptible nor billable, at TASK_Q. */
  lemma TasksAreNotPreemptible()
    ensures forall i :: 1 <= i < NR_TASKS ==>
      Image[i].flags & SYS_PROC != 0 && Image[i].flags & PREEMPTIBLE == 0 &&
      Image[i].flags & BILLABLE == 0 && Image[i].priority == TASK_Q
  {
  }

  /**
   * Trap masks: a kernel task may only RECEIVE, a user process only SENDREC
   * and ECHO, a system service any trap.
   */
  lemma TrapMasks()
    ensures forall f :: f in KnownCalls ==> (TSK_T & TrapBit(f) != 0 <==> f == RECEIVE)
    ensures forall f :: f in KnownCalls ==> (USR_T & TrapBit(f) != 0 <==> f == SENDREC || f == ECHO)
    ensures forall f: bv32 :: f < 16 ==> SRV_T & TrapBit(f) != 0
  {
    assert TSK_T == TrapBit(RECEIVE);
    assert USR_T == TrapBit(SENDREC) | TrapBit(ECHO);
  }

  /** USR_M permits sending only to PM, FS and RS among the boot processes; DRV_M adds SYSTEM, CLOCK, LOG and TTY. */
  lemma SendMasks()
    ensures USR_M == SendBit(PM_PROC_NR) | SendBit(FS_PROC_NR) | SendBit(RS_PROC_NR)
    ensures DRV_M == USR_M | SendBit(SYSTEM) | SendBit(CLOCK) | SendBit(LOG_PROC_NR) | SendBit(TTY_PROC_NR)
    ensures forall n :: -NR_TASKS <= n <= INIT_PROC_NR ==>
      (USR_M & SendBit(n) != 0 <==> n == PM_PROC_NR || n == FS_PROC_NR || n == RS_PROC_NR)
    ensures DRV_M & USR_M == USR_M
  {
    forall n | -NR_TASKS <= n <= INIT_PROC_NR
      ensures USR_M & SendBit(n) != 0 <==> n == PM_PROC_NR || n == FS_PROC_NR || n == RS_PROC_NR
    {
      if n == -4 {} else if n == -3 {} else if n == -2 {} else if n == -1 {}
      else if n == 0 {} else if n == 1 {} else if n == 2 {} else if n == 3 {}
      else if n == 4 {} else if n == 5 {} else if n == 6 {} else {}
    }
  }

  /** PM may make every kernel call except the device-I/O, IRQ and BIOS calls; RS may make all. */
  lemma CallMasks()
    ensures PM_C == !(CallBit(SYS_DEVIO) | CallBit(SYS_SDEVIO) | CallBit(SYS_VDEVIO) | CallBit(SYS_IRQCTL) | CallBit(SYS_INT86))
    ensures forall n :: 0 <= n < NR_SYS_CALLS ==>
      (PM_C & CallBit(n) == 0 <==> n in {SYS_DEVIO, SYS_SDEVIO, SYS_VDEVIO, SYS_IRQCTL, SYS_INT86})
    ensures forall n :: 0 <= n < NR_SYS_CALLS ==> RS_C & CallBit(n) != 0
    ensures FS_C == CallBit(SYS_KILL) | CallBit(SYS_VIRCOPY) | CallBit(SYS_VIRVCOPY) | CallBit(SYS_UMAP)
                  | CallBit(SYS_GETINFO) | CallBit(SYS_EXIT) | CallBit(SYS_TIMES) | CallBit(SYS_SETALARM)
    ensures DRV_C == FS_C | CallBit(SYS_SEGCTL) | CallBit(SYS_IRQCTL) | CallBit(SYS_INT86)
                   | CallBit(SYS_DEVIO) | CallBit(SYS_VDEVIO) | CallBit(SYS_SDEVIO)
    ensures MEM_C == DRV_C | CallBit(SYS_PHYSCOPY) | CallBit(SYS_PHYSVCOPY)
  {
    forall n | 0 <= n < NR_SYS_CALLS
      ensures PM_C & CallBit(n) == 0 <==> n in {SYS_DEVIO, SYS_SDEVIO, SYS_VDEVIO, SYS_IRQCTL, SYS_INT86}
      ensures RS_C & CallBit(n) != 0
    {
      if n < 8 {
        if n == 0 {} else if n == 1 {} else if n == 2 {} else if n == 3 {}
        else if n == 4 {} else if n == 5 {} else if n == 6 {} else {}
      } else if n < 16 {
        if n == 8 {} else if n == 9 {} else if n == 10 {} else if n == 11 {}
        else if n == 12 {} else if n == 13 {} else if n == 14 {} else {}
      } else if n < 24 {
        if n == 16 {} else if n == 17 {} else if n == 18 {} else if n == 19 {}
        else if n == 20 {} else if n == 21 {} else if n == 22 {} else {}
      } else {
        if n == 24 {} else if n == 25 {} else if n == 26 {} else {}
      }
    }
  }

  /** The shared task stack holds IDLE's stack, no stack for HARDWARE, and those of CLOCK and SYSTEM. */
  lemma StackSpace()
    ensures TOT_STACK_SPACE == IDL_S + HRD_S + 2 * TSK_S && HRD_S == 0
    ensures TOT_STACK_SPACE == Image[0].stkSize + Image[1].stkSize + Image[2].stkSize + Image[3].stkSize
    ensures forall i :: NR_TASKS <= i < |Image| ==> Image[i].stkSize == 0
  {
  }
}
