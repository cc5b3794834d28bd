/**
 * The kernel's start-up and the first half of its shutdown
 * (kernel/main.c): main clears the process and privilege tables, then
 * gives every program of the boot image its slot, privilege record,
 * memory map, registers and kernel-task stack, and puts all but HARDWARE
 * on the ready queues; prepare_shutdown sends SIGKSTOP to the live system
 * processes.
 */
module KMain {
  import opened KConst
  import opened KState
  import opened KQueues
  import opened KIpc
  import opened KProc
  import opened BootTable
  import KSystem
  import KMem
  import Protect
  import KSignal
  import Seqs

  const TWO32: int := 0x1_0000_0000
  /** sizeof(reg_t). */
  const REG_T_BYTES: int := 4
  /** The initial psw of a process, and of a kernel task (I/O privilege level 1). */
  const INIT_PSW: bv32 := 0x0200
  const INIT_TASK_PSW: bv32 := 0x1200

  // ---------------------------------------------------------------------
  // Clearing the tables

  /** The tables as main leaves them after clearing: every slot free and numbered, every record free and numbered. */
  ghost predicate Cleared(procs: seq<Proc>, privs: seq<Priv>)
  {
    && |procs| == NR_SLOTS && |privs| == NR_SYS_PROCS
    && (forall i :: 0 <= i < NR_SLOTS ==> procs[i].rts == {SlotFree} && procs[i].nr == i - NR_TASKS)
    && (forall i :: 0 <= i < NR_SYS_PROCS ==> privs[i].procNr == NONE && privs[i].id == i)
  }

  /**
   * main's first two loops: slot i becomes SLOT_FREE with p_nr = i -
   * NR_TASKS, and privilege record i gets s_proc_nr = NONE and s_id = i;
   * no other field changes.
   */
  method ClearTables(k: Kernel)
    requires k.proc.Length == NR_SLOTS && k.priv.Length == NR_SYS_PROCS
    modifies k.proc, k.priv
    ensures Cleared(k.proc[..], k.priv[..])
    ensures forall i :: 0 <= i < NR_SLOTS ==> k.proc[i] == old(k.proc[i]).(rts := {SlotFree}, nr := i - NR_TASKS)
    ensures forall i :: 0 <= i < NR_SYS_PROCS ==> k.priv[i] == old(k.priv[i]).(procNr := NONE, id := i)
  {
    var i := 0;
    while i < NR_SLOTS
      invariant 0 <= i <= NR_SLOTS
      invariant forall j :: 0 <= j < i ==> k.proc[j] == old(k.proc[j]).(rts := {SlotFree}, nr := j - NR_TASKS)
      invariant forall j :: i <= j < NR_SLOTS ==> k.proc[j] == old(k.proc[j])
      invariant unchanged(k.priv)
    {
      k.proc[i] := k.proc[i].(rts := {SlotFree}, nr := i - NR_TASKS);
      i := i + 1;
    }
    i := 0;
    while i < NR_SYS_PROCS
      invariant 0 <= i <= NR_SYS_PROCS
      invariant forall j :: 0 <= j < i ==> k.priv[j] == old(k.priv[j]).(procNr := NONE, id := j)
      invariant forall j :: i <= j < NR_SYS_PROCS ==> k.priv[j] == old(k.priv[j])
      invariant forall j :: 0 <= j < NR_SLOTS ==> k.proc[j] == old(k.proc[j]).(rts := {SlotFree}, nr := j - NR_TASKS)
    {
      k.priv[i] := k.priv[i].(procNr := NONE, id := i);
      i := i + 1;
    }
  }

  /**
   * After clearing, every slot is empty and maps back to its own number,
   * and get_priv's search finds record 1: record 0 is kept for the user
   * processes.
   */
  lemma ClearedTablesAreFree(procs: seq<Proc>, privs: seq<Priv>)
    requires Cleared(procs, privs)
    ensures forall i :: 0 <= i < NR_SLOTS ==> IsEmpty(procs[i]) && ProcSlot(procs[i].nr) == i
    ensures KSystem.FreePrivFrom(privs, 0) == Some(1)
  {
    assert !KSystem.Unbound(privs[0]);
    assert KSystem.Unbound(privs[1]);
    FirstFree(privs, 1);
  }

  /** get_priv's search finds the first unbound record. */
  lemma FirstFree(privs: seq<Priv>, n: nat)
    requires n < |privs| && KSystem.Unbound(privs[n])
    requires forall j :: 0 <= j < n ==> !KSystem.Unbound(privs[j])
    ensures KSystem.FreePrivFrom(privs, 0) == Some(n)
  {
    var r := KSystem.FreePrivFrom(privs, 0);
    assert r.Some?;
  }

  // ---------------------------------------------------------------------
  // Memory maps

  /**
   * The fields of an a.out header main reads: a_syms (where the boot
   * monitor leaves the load address), a_text, a_total, and whether
   * A_SEP (separate instruction and data) is set.
   */
  datatype Exec = Exec(aSyms: nat, aText: nat, aTotal: nat, sep: bool)

  /** A byte count rounded up to clicks. */
  function Clicks(bytes: nat): (c: nat)
    ensures c * CLICK_SIZE >= bytes && (c == 0 || (c - 1) * CLICK_SIZE < bytes)
  {
    var c := (bytes + CLICK_SIZE - 1) / CLICK_SIZE;
    assert bytes + CLICK_SIZE - 1 == c * CLICK_SIZE + (bytes + CLICK_SIZE - 1) % CLICK_SIZE;
    c
  }

  /**
   * The memory map main builds from a header: text at the load click,
   * data right after the text (the text is empty with common I&D), the
   * stack segment empty at the end of the data; mem_vir of text and data
   * and mem_len of the stack keep what the slot had.
   */
  function BootMap(m: seq<MemMap>, h: Exec): (m': seq<MemMap>)
    requires |m| == NR_LOCAL_SEGS
    ensures |m'| == NR_LOCAL_SEGS
  {
    var textBase := h.aSyms / CLICK_SIZE;
    var textClicks := if h.sep then Clicks(h.aText) else 0;
    var dataClicks := Clicks(h.aTotal);
    [m[T].(memPhys := textBase, memLen := textClicks),
     m[D].(memPhys := textBase + textClicks, memLen := dataClicks),
     m[S].(memPhys := textBase + textClicks + dataClicks, memVir := dataClicks)]
  }

  /**
   * The map is laid out contiguously: data follows the text, the stack
   * follows the data and starts at the data's virtual end; text and
   * data are just large enough for a_text and a_total, and the text is
   * empty without A_SEP.
   */
  lemma BootMapLayout(m: seq<MemMap>, h: Exec)
    requires |m| == NR_LOCAL_SEGS
    ensures var m' := BootMap(m, h);
      && m'[T].memPhys * CLICK_SIZE <= h.aSyms < (m'[T].memPhys + 1) * CLICK_SIZE
      && m'[D].memPhys == m'[T].memPhys + m'[T].memLen
      && m'[S].memPhys == m'[D].memPhys + m'[D].memLen
      && m'[S].memVir == m'[D].memLen
      && (h.sep ==> m'[T].memLen * CLICK_SIZE >= h.aText > (m'[T].memLen - 1) * CLICK_SIZE)
      && (!h.sep ==> m'[T].memLen == 0)
      && m'[D].memLen * CLICK_SIZE >= h.aTotal && (m'[D].memLen - 1) * CLICK_SIZE < h.aTotal
      && m'[T].memVir == m[T].memVir && m'[D].memVir == m[D].memVir && m'[S].memLen == m[S].memLen
  {
    var m' := BootMap(m, h);
    assert h.aSyms == m'[T].memPhys * CLICK_SIZE + h.aSyms % CLICK_SIZE;
  }

  /** The initial sp of a user-space process: one word below the top of its stack segment, in 32-bit arithmetic. */
  function UserSp(m: seq<MemMap>): Protect.u32
    requires |m| == NR_LOCAL_SEGS
  {
    (Protect.ClickBytes(m[S].memVir + m[S].memLen) - REG_T_BYTES) % TWO32
  }

  /**
   * With the slot's stack segment empty and data starting at virtual
   * address 0 (as in the zeroed table), the word at a server's initial
   * sp, its "argc", is the last word of its data segment, and umap_local
   * finds it there.
   */
  lemma ArgcWordInData(p: Proc, h: Exec)
    requires |p.memmap| == NR_LOCAL_SEGS && p.memmap[S].memLen == 0 && p.memmap[D].memVir == 0
    requires 0 < h.aTotal && Clicks(h.aTotal) * CLICK_SIZE < TWO32
    ensures var m := BootMap(p.memmap, h); var sp := UserSp(m);
      && sp == m[D].memLen * CLICK_SIZE - REG_T_BYTES
      && KMem.UmapLocal(p.(memmap := m), D, sp, REG_T_BYTES) == (m[D].memPhys * CLICK_SIZE + sp) % TWO32
  {
    var m := BootMap(p.memmap, h);
    var len := m[D].memLen;
    var top := len * CLICK_SIZE;
    assert m[S].memVir + m[S].memLen == len;
    assert Protect.ClickBytes(len) == top;
    var sp := UserSp(m);
    assert sp == top - REG_T_BYTES;
    LastWordClicks(len);
    assert KMem.Add32(sp, REG_T_BYTES) == top;
    assert KMem.LocalSeg(m, D, (sp + REG_T_BYTES - 1) / CLICK_SIZE) == D;
  }

  /** The last word below click `len` lies wholly in click len - 1. */
  lemma LastWordClicks(len: nat)
    requires len > 0
    ensures (len * CLICK_SIZE - REG_T_BYTES) / CLICK_SIZE == len - 1
    ensures (len * CLICK_SIZE - 1) / CLICK_SIZE == len - 1
  {
    assert len * CLICK_SIZE - REG_T_BYTES == (len - 1) * CLICK_SIZE + (CLICK_SIZE - REG_T_BYTES);
    assert len * CLICK_SIZE - 1 == (len - 1) * CLICK_SIZE + (CLICK_SIZE - 1);
  }

  // ---------------------------------------------------------------------
  // The rows of the boot image

  /** An image entry main can place: a process number with a slot, a scheduling queue and a positive quantum. */
  predicate RowOk(ip: BootImage)
  {
    -NR_TASKS <= ip.procNr < NR_PROCS && ip.priority < NR_SCHED_QUEUES && ip.quantum > 0
  }

  /** The slot of an image entry. */
  function SlotOf(ip: BootImage): (x: nat)
    requires RowOk(ip)
    ensures x < NR_SLOTS
  {
    ip.procNr + NR_TASKS
  }

  /** An entry whose flags carry SYS_PROC gets a record of its own from get_priv. */
  predicate SysEntry(ip: BootImage)
  {
    ip.flags & SYS_PROC != 0
  }

  /** Every entry of a table can be placed. */
  ghost predicate RowsOk(rows: seq<BootImage>)
  {
    forall i :: 0 <= i < |rows| ==> RowOk(rows[i])
  }

  /**
   * The shape of a boot table main's loop relies on: one entry per boot
   * process, each with a slot among the first NR_BOOT_PROCS, no two for
   * the same process, the kernel tasks first, and every entry but the
   * last (INIT's) a system process.
   */
  ghost predicate Bootable(rows: seq<BootImage>)
  {
    && |rows| == NR_BOOT_PROCS && RowsOk(rows)
    && (forall i :: 0 <= i < |rows| ==> rows[i].procNr < NR_BOOT_PROCS - NR_TASKS)
    && (forall i :: 0 <= i < |rows| ==> (IsKernelN(rows[i].procNr) <==> i < NR_TASKS))
    && (forall i :: 0 <= i < NR_TASKS ==> rows[i].procNr == i - NR_TASKS)
    && (forall i :: 0 <= i < |rows| ==> (SysEntry(rows[i]) <==> i < NR_BOOT_PROCS - 1))
    && (forall i, j :: 0 <= i < j < |rows| ==> rows[i].procNr != rows[j].procNr)
  }

  /** MINIX's boot image has that shape. */
  lemma ImageBootable()
    ensures Bootable(Image)
  {
    ImageSizeChecks();
    KernelTasksFirst();
    ImageRowsOk();
    ImageSysEntries();
    ImageDistinct();
  }

  lemma ImageRowsOk()
    ensures RowsOk(Image)
    ensures forall i :: 0 <= i < |Image| ==> Image[i].procNr < NR_BOOT_PROCS - NR_TASKS
  {
  }

  lemma ImageSysEntries()
    ensures forall i :: 0 <= i < |Image| ==> (SysEntry(Image[i]) <==> i < NR_BOOT_PROCS - 1)
  {
  }

  /** Every entry names a different process: its process number gives back its row. */
  lemma ImageDistinct()
    ensures forall i, j :: 0 <= i < j < |Image| ==> Image[i].procNr != Image[j].procNr
  {
    var rowOf := [0, 1, 2, 3, 4, 5, 6, 8, 9, 7, 10, 11];
    assert forall i :: 0 <= i < |Image| ==> rowOf[Image[i].procNr + NR_TASKS] == i;
  }

  /** The record entry i is given: the system processes take records 1, 2, ... in image order, INIT shares USER_PRIV_ID. */
  function RowPriv(i: nat): (r: nat)
    requires i < NR_BOOT_PROCS
    ensures r < NR_BOOT_PROCS
  {
    if i < NR_BOOT_PROCS - 1 then i + 1 else USER_PRIV_ID
  }

  /** The a.out header of entry i: the kernel tasks share the kernel's (0), the others follow in order. */
  function HdrIndex(rows: seq<BootImage>, i: nat): (n: nat)
    requires Bootable(rows) && i < |rows|
    ensures n < NR_BOOT_PROCS - NR_TASKS + 1
  {
    if IsKernelN(rows[i].procNr) then 0 else 1 + i - NR_TASKS
  }

  /** The kernel-task stack space used by the entries before n. */
  function StackUsed(rows: seq<BootImage>, n: nat): nat
    requires n <= |rows|
  {
    if n == 0 then 0
    else StackUsed(rows, n - 1) + (if IsKernelN(rows[n - 1].procNr) then rows[n - 1].stkSize else 0)
  }

  /** ktsb after the entries before n: the base of t_stack plus the stacks handed out, as a 32-bit register. */
  function Ktsb(rows: seq<BootImage>, tStack: Protect.u32, n: nat): Protect.u32
    requires n <= |rows|
  {
    (tStack + StackUsed(rows, n)) % TWO32
  }

  /**
   * The kernel-task stacks are cut from t_stack one after another: task
   * i's stack is [StackUsed(i), StackUsed(i) + stksize), no two overlap,
   * and together they use exactly TOT_STACK_SPACE; the other rows take
   * none.
   */
  lemma TaskStacksFit()
    ensures StackUsed(Image, 0) == 0 && StackUsed(Image, 1) == IDL_S && StackUsed(Image, 2) == IDL_S + TSK_S
    ensures StackUsed(Image, 3) == IDL_S + 2 * TSK_S && StackUsed(Image, 4) == StackUsed(Image, 3) == TOT_STACK_SPACE - HRD_S
    ensures forall n :: NR_TASKS <= n <= NR_BOOT_PROCS ==> StackUsed(Image, n) == TOT_STACK_SPACE
  {
    StackSpace();
    assert StackUsed(Image, 1) == IDL_S;
    assert StackUsed(Image, 2) == IDL_S + TSK_S;
    assert StackUsed(Image, 3) == IDL_S + 2 * TSK_S;
    var n := NR_TASKS;
    while n < NR_BOOT_PROCS
      invariant NR_TASKS <= n <= NR_BOOT_PROCS
      invariant forall m :: NR_TASKS <= m <= n ==> StackUsed(Image, m) == TOT_STACK_SPACE
    {
      n := n + 1;
    }
  }

  /** The process flags of an s_flags word. */
  function FlagSet(b: bv16): (fs: set<PFlag>)
    ensures forall f :: f in fs <==> b & PFlagBit(f) != 0
  {
    (if b & PREEMPTIBLE != 0 then {Preemptible} else {})
    + (if b & BILLABLE != 0 then {Billable} else {})
    + (if b & SYS_PROC != 0 then {SysProc} else {})
    + (if b & SENDREC_BUSY != 0 then {SendrecBusy} else {})
  }

  predicate Bit16(m: bv16, i: nat)
    requires i < 16
  {
    m & (1 as bv16 << i) != 0
  }

  predicate Bit32(m: bv32, i: nat)
    requires i < 32
  {
    m & (1 as bv32 << i) != 0
  }

  /** The bit numbers set in a 16-bit mask. */
  function Bits16(m: bv16): (s: set<int>)
    ensures forall i :: i in s <==> 0 <= i < 16 && Bit16(m, i)
  {
    set i: nat | i < 16 && Bit16(m, i)
  }

  /** The bit numbers set in a 32-bit mask. */
  function Bits32(m: bv32): (s: set<int>)
    ensures forall i :: i in s <==> 0 <= i < 32 && Bit32(m, i)
  {
    set i: nat | i < 32 && Bit32(m, i)
  }

  /**
   * Row i's privilege record after main: get_priv's binding (the process
   * for a system process, INIT for the shared user record), the image's
   * flags, trap mask and call mask, the image's send mask in the first
   * bitmap chunk (the second chunk keeps its bits), and for a kernel task
   * with a stack the guard word.
   */
  function BootPriv(v: Priv, ip: BootImage): Priv
  {
    v.(procNr := if SysEntry(ip) then ip.procNr else INIT_PROC_NR,
       flags := FlagSet(ip.flags),
       trapMask := Bits16(ip.trapMask),
       callMask := Bits32(ip.callMask),
       ipcTo := Bits16(ip.ipcTo) + (set b | b in v.ipcTo && b >= 16),
       stackGuard := if IsKernelN(ip.procNr) && ip.stkSize > 0 then Some(STACK_GUARD) else v.stackGuard)
  }

  /** A booted record permits exactly the traps whose bits the image's trap mask sets. */
  lemma BootTraps(v: Priv, ip: BootImage, f: bv32)
    requires f in KnownCalls
    ensures f as int in BootPriv(v, ip).trapMask <==> ip.trapMask & TrapBit(f) != 0
  {
    KnownCallsSmall(f);
    assert TrapBit(f) == 1 as bv16 << f as nat;
  }

  /**
   * What the booted records permit: CLOCK and SYSTEM may only RECEIVE,
   * IDLE and HARDWARE make no trap at all, INIT may only SENDREC and
   * ECHO, and PM may make every kernel call but the device-I/O, IRQ and
   * BIOS ones.
   */
  lemma BootRights(v: Priv, f: bv32, n: int)
    requires f in KnownCalls && 0 <= n < NR_SYS_CALLS
    ensures f as int in BootPriv(v, Image[1]).trapMask <==> f == RECEIVE
    ensures f as int in BootPriv(v, Image[2]).trapMask <==> f == RECEIVE
    ensures f as int !in BootPriv(v, Image[0]).trapMask && f as int !in BootPriv(v, Image[3]).trapMask
    ensures f as int in BootPriv(v, Image[NR_BOOT_PROCS - 1]).trapMask <==> f == SENDREC || f == ECHO
    ensures n in BootPriv(v, Image[NR_TASKS + PM_PROC_NR]).callMask <==>
      n !in {SYS_DEVIO, SYS_SDEVIO, SYS_VDEVIO, SYS_IRQCTL, SYS_INT86}
  {
    TrapMasks();
    CallMasks();
    BootTraps(v, Image[0], f);
    BootTraps(v, Image[1], f);
    BootTraps(v, Image[2], f);
    BootTraps(v, Image[3], f);
    BootTraps(v, Image[NR_BOOT_PROCS - 1], f);
    CallBitIsShift(n);
  }

  /** Among the kernel tasks only IDLE is billable and preemptible; every row but INIT is a system process. */
  lemma BootFlags(v: Priv, i: nat)
    requires i < |Image|
    ensures IsKernelN(Image[i].procNr) ==>
      && (Billable in BootPriv(v, Image[i]).flags <==> i == 0)
      && (Preemptible in BootPriv(v, Image[i]).flags <==> i == 0)
    ensures SysProc in BootPriv(v, Image[i]).flags <==> Image[i].procNr != INIT_PROC_NR
  {
    OnlyIdleAtIdleQueue();
    TasksAreNotPreemptible();
    KernelTasksFirst();
  }

  lemma KnownCallsSmall(f: bv32)
    requires f in KnownCalls
    ensures f < 16
  {
  }

  /** The registers main gives a process: pc, psw, sp, and the code and data selectors. */
  function BootRegs(r: Regs, pc: bv32, psw: bv32, sp: bv32, cs: bv16, ds: bv16): (r': Regs)
    requires RegsOk(r)
    ensures RegsOk(r')
  {
    Regs([ds, ds, ds, ds], r.words[W_PC := pc][W_PSW := psw][W_SP := sp][W_CS := cs as bv32][W_SS := ds as bv32])
  }

  /** The code and data selectors of a kernel task (privilege 1) and of any other process (privilege 3), as 16-bit words. */
  function SelectorWords(isKernel: bool): (bv16, bv16)
  {
    if isKernel then (0x0005, 0x000D) else (0x0007, 0x000F)
  }

  /** Those are the selectors alloc_segments loads: cs for the LDT code entry, ds, es, ss, fs and gs for the data entry. */
  lemma SelectorWordsMatch(isKernel: bool)
    ensures var s := Protect.SegSelectors(isKernel);
      && SelectorWords(isKernel).0 as int == s.cs
      && SelectorWords(isKernel).1 as int == s.ds == s.es == s.ss == s.fs == s.gs
  {
  }

  /** ktsb after row i: a kernel task advances it by its stack size. */
  function NextKtsb(ktsb: Protect.u32, ip: BootImage): Protect.u32
  {
    if IsKernelN(ip.procNr) then (ktsb + ip.stkSize) % TWO32 else ktsb
  }

  /**
   * Row i's slot after main: priorities and quantum from the image, its
   * name, the record get_priv gave it, the memory map of its header, the
   * initial pc, the task or user psw, the stack pointer (the new ktsb
   * for a kernel task, one word below the stack top otherwise) and
   * alloc_segments' selectors; it is runnable except HARDWARE, which is
   * NO_MAP.
   */
  function BootProc(p: Proc, ip: BootImage, privId: nat, h: Exec, pc: bv32, ktsb: Protect.u32): (p': Proc)
    requires |p.memmap| == NR_LOCAL_SEGS && RegsOk(p.regs)
    ensures |p'.memmap| == NR_LOCAL_SEGS && RegsOk(p'.regs)
  {
    var m := BootMap(p.memmap, h);
    var kernel := IsKernelN(ip.procNr);
    var (cs, ds) := SelectorWords(kernel);
    var sp := if kernel then ktsb as bv32 else UserSp(m) as bv32;
    p.(privId := privId,
       maxPriority := ip.priority, priority := ip.priority,
       quantumSize := ip.quantum, ticksLeft := ip.quantum, name := ip.name,
       memmap := m,
       regs := BootRegs(p.regs, pc, if kernel then INIT_TASK_PSW else INIT_PSW, sp, cs, ds),
       rts := if ip.procNr != HARDWARE then {} else {NoMap})
  }

  /** A booted slot keeps its number and is well formed; it is runnable exactly when it is not HARDWARE. */
  lemma BootProcOk(p: Proc, ip: BootImage, privId: nat, h: Exec, pc: bv32, ktsb: Protect.u32)
    requires RowOk(ip) && SlotOk(p, SlotOf(ip)) && privId < NR_SYS_PROCS
    ensures var p' := BootProc(p, ip, privId, h, pc, ktsb);
      && SlotOk(p', SlotOf(ip)) && p'.sendTo == p.sendTo
      && (p'.rts == {} <==> ip.procNr != HARDWARE) && Sending !in p'.rts
      && p'.ticksLeft > 0
      && Psw(p'.regs) & 0x3000 == (if IsKernelN(ip.procNr) then 0x1000 else 0)
  {
  }

  /** The psw word of a register frame. */
  function Psw(r: Regs): bv32
    requires RegsOk(r)
  {
    r.words[W_PSW]
  }

  // ---------------------------------------------------------------------
  // The ready queues at boot

  /**
   * The ready queues after rows before n: every row but HARDWARE was
   * enqueued with a full quantum, so sched put it at the front of the
   * queue of its priority.
   */
  function BootQueues(rows: seq<BootImage>, n: nat): (rq: seq<seq<nat>>)
    requires RowsOk(rows) && n <= |rows|
    ensures |rq| == NR_SCHED_QUEUES
  {
    if n == 0 then seq(NR_SCHED_QUEUES, _ => [])
    else
      var rq := BootQueues(rows, n - 1);
      var ip := rows[n - 1];
      if ip.procNr == HARDWARE then rq else Inserted(rq, ip.priority, SlotOf(ip), true)
  }

  /**
   * The ready queues MINIX starts with, by slot: SYSTEM before CLOCK at
   * TASK_Q, then TTY; DRIVER, LOG, MEMORY; RS, PM; FS; INIT at USER_Q;
   * IDLE at IDLE_Q.  Each queue holds its processes in the reverse of
   * image order, and SYSTEM runs first.
   */
  lemma BootReadyQueues()
    requires RowsOk(Image)
    ensures BootQueues(Image, NR_BOOT_PROCS) ==
      [[2, 1], [9], [10, 8, 7], [6, 4], [5], [], [], [11], [], [], [], [], [], [], [], [0]]
    ensures Lowest(BootQueues(Image, NR_BOOT_PROCS), 0) == Some(ProcSlot(SYSTEM))
  {
    var e: seq<nat> := [];
    var q := [e, e, e, e, e, e, e, e, e, e, e, e, e, e, e, e];
    assert BootQueues(Image, 0) == q;
    BootQueuesStep(q, 0, [0]);
    q := q[15 := [0]];
    BootQueuesStep(q, 1, [1]);
    q := q[0 := [1]];
    BootQueuesStep(q, 2, [2, 1]);
    q := q[0 := [2, 1]];
    assert BootQueues(Image, 4) == q;
    BootQueuesStep(q, 4, [4]);
    q := q[3 := [4]];
    BootQueuesStep(q, 5, [5]);
    q := q[4 := [5]];
    BootQueuesStep(q, 6, [6, 4]);
    q := q[3 := [6, 4]];
    BootQueuesStep(q, 7, [9]);
    q := q[1 := [9]];
    BootQueuesStep(q, 8, [7]);
    q := q[2 := [7]];
    BootQueuesStep(q, 9, [8, 7]);
    q := q[2 := [8, 7]];
    BootQueuesStep(q, 10, [10, 8, 7]);
    q := q[2 := [10, 8, 7]];
    BootQueuesStep(q, 11, [11]);
    q := q[7 := [11]];
    assert q == [[2, 1], [9], [10, 8, 7], [6, 4], [5], e, e, [11], e, e, e, e, e, e, e, [0]];
  }

  /** Row n, unless it is HARDWARE, goes to the front of the queue of its priority. */
  lemma BootQueuesStep(rq: seq<seq<nat>>, n: nat, v: seq<nat>)
    requires RowsOk(Image) && n < |Image| && rq == BootQueues(Image, n)
    requires Image[n].procNr != HARDWARE && v == [SlotOf(Image[n])] + rq[Image[n].priority]
    ensures BootQueues(Image, n + 1) == rq[Image[n].priority := v]
  {
  }

  // ---------------------------------------------------------------------
  // main's boot loop

  /**
   * One pass of main's loop for entry ip, given record r: get_priv binds
   * the record (for a system process the first free one, which is r),
   * which then takes the image's flags and masks (and the stack guard of
   * a kernel task); the slot takes the entry's scheduling fields, memory
   * map and registers; every process but HARDWARE is enqueued.
   */
  method BootRow(k: Kernel, ip: BootImage, r: nat, h: Exec, pc: bv32, ktsb: Protect.u32) returns (ktsb': Protect.u32)
    requires k.Valid() && RowOk(ip) && k.proc[SlotOf(ip)].rts == {SlotFree}
    requires if SysEntry(ip) then KSystem.FreePrivFrom(k.priv[..], 0) == Some(r) else r == USER_PRIV_ID
    modifies k, k.proc, k.priv, k.nextReady, k.rdyHead, k.rdyTail
    ensures k.Valid()
    ensures ktsb' == NextKtsb(ktsb, ip)
    ensures k.proc[..] == old(k.proc[..])[SlotOf(ip) := BootProc(old(k.proc[SlotOf(ip)]), ip, r, h, pc, ktsb')]
    ensures k.priv[..] == old(k.priv[..])[r := BootPriv(old(k.priv[r]), ip)]
    ensures k.readyQ == if ip.procNr == HARDWARE then old(k.readyQ) else Inserted(old(k.readyQ), ip.priority, SlotOf(ip), true)
    ensures ip.procNr != HARDWARE ==> Lowest(k.readyQ, 0).Some? && k.nextPtr == Lowest(k.readyQ, 0).value
    ensures ip.procNr == HARDWARE ==> k.nextPtr == old(k.nextPtr)
  {
    var x := SlotOf(ip);
    assert SlotOk(k.proc[x], x) && PrivOk(k.priv[r], r);
    ktsb' := NextKtsb(ktsb, ip);
    var p := BootProc(k.proc[x], ip, r, h, pc, ktsb');
    BootProcOk(k.proc[x], ip, r, h, pc, ktsb');
    Admit(k, x, r, SysEntry(ip), p, BootPriv(k.priv[r], ip));
  }

  /**
   * get_priv binds a record to slot x (for a system process the first
   * free one, which is r), and then record r becomes v and the slot p,
   * which joins its ready queue if it is runnable.
   */
  method Admit(k: Kernel, x: nat, r: nat, sysProc: bool, p: Proc, v: Priv)
    requires k.Valid() && x < NR_SLOTS && k.proc[x].rts == {SlotFree}
    requires if sysProc then KSystem.FreePrivFrom(k.priv[..], 0) == Some(r) else r == USER_PRIV_ID
    requires PrivOk(v, r) && SlotOk(p, x) && p.sendTo == k.proc[x].sendTo && Sending !in p.rts && p.ticksLeft > 0
    modifies k, k.proc, k.priv, k.nextReady, k.rdyHead, k.rdyTail
    ensures k.Valid()
    ensures k.proc[..] == old(k.proc[..])[x := p] && k.priv[..] == old(k.priv[..])[r := v]
    ensures k.readyQ == if p.rts != {} then old(k.readyQ) else Inserted(old(k.readyQ), p.priority, x, true)
    ensures p.rts == {} ==> Lowest(k.readyQ, 0).Some? && k.nextPtr == Lowest(k.readyQ, 0).value
    ensures p.rts != {} ==> k.nextPtr == old(k.nextPtr)
  {
    ghost var t0, v0 := k.proc[..], k.priv[..];
    BindRecord(k, x, r, sysProc, v);
    ghost var t1, v1 := k.proc[..], k.priv[..];
    Install(k, x, p);
    Seqs.UpdateTwice(t0, x, t0[x].(privId := r), p);
    assert k.priv[..] == v1;
  }

  /** get_priv binds record r to slot x, which then becomes v; the slot keeps its fields. */
  method BindRecord(k: Kernel, x: nat, r: nat, sysProc: bool, v: Priv)
    requires k.Valid() && x < NR_SLOTS
    requires if sysProc then KSystem.FreePrivFrom(k.priv[..], 0) == Some(r) else r == USER_PRIV_ID
    requires PrivOk(v, r)
    modifies k.proc, k.priv
    ensures k.Valid()
    ensures k.proc[..] == old(k.proc[..])[x := old(k.proc[x]).(privId := r)] && k.priv[..] == old(k.priv[..])[r := v]
  {
    var _ := KSystem.GetPriv(k, x, sysProc);
    PrivUpdateInv(k.Snap(), k.G(), None, r, v);
    k.priv[r] := v;
  }

  /**
   * A free slot takes a new process; if the process is runnable, sched
   * puts it, with its full quantum, at the front of its queue.
   */
  method Install(k: Kernel, x: nat, p: Proc)
    requires k.Valid() && x < NR_SLOTS && k.proc[x].rts == {SlotFree}
    requires SlotOk(p, x) && p.sendTo == k.proc[x].sendTo && Sending !in p.rts && p.ticksLeft > 0
    modifies k, k.proc, k.nextReady, k.rdyHead, k.rdyTail
    ensures k.Valid()
    ensures k.proc[..] == old(k.proc[..])[x := p]
    ensures k.readyQ == if p.rts != {} then old(k.readyQ) else Inserted(old(k.readyQ), p.priority, x, true)
    ensures p.rts == {} ==> Lowest(k.readyQ, 0).Some? && k.nextPtr == Lowest(k.readyQ, 0).value
    ensures p.rts != {} ==> k.nextPtr == old(k.nextPtr)
  {
    RetagInv(k.Snap(), k.G(), x, p);
    k.SetProc(x, p);
    if p.rts == {} {
      k.Enqueue(x);
    }
  }

  /**
   * main's boot loop over a boot table, from cleared tables with empty
   * ready queues.  Entry i's slot and record end up as BootProc and
   * BootPriv say, with the kernel-task stacks cut from t_stack in turn;
   * nothing else in the tables changes; the ready queues are BootQueues,
   * and next_ptr heads the first non-empty one; bill_ptr is IDLE.
   */
  method Boot(k: Kernel, rows: seq<BootImage>, hdrs: seq<Exec>, pcs: seq<bv32>, tStack: Protect.u32)
    requires k.Valid() && Cleared(k.proc[..], k.priv[..]) && Bootable(rows)
    requires forall q :: 0 <= q < NR_SCHED_QUEUES ==> k.readyQ[q] == []
    requires |hdrs| == NR_BOOT_PROCS - NR_TASKS + 1 && |pcs| == NR_BOOT_PROCS
    modifies k, k.proc, k.priv, k.nextReady, k.rdyHead, k.rdyTail
    ensures k.Valid()
    ensures Booted(k.proc[..], old(k.proc[..]), rows, hdrs, pcs, tStack, NR_BOOT_PROCS)
    ensures BootedRecords(k.priv[..], old(k.priv[..]), rows, NR_BOOT_PROCS)
    ensures forall x :: NR_BOOT_PROCS <= x < NR_SLOTS ==> k.proc[x] == old(k.proc[x])
    ensures k.readyQ == BootQueues(rows, NR_BOOT_PROCS)
    ensures Lowest(k.readyQ, 0).Some? && k.nextPtr == Lowest(k.readyQ, 0).value && k.billPtr == ProcSlot(IDLE)
  {
    ghost var t0 := k.proc[..];
    ghost var v0 := k.priv[..];
    var _ := BootLoop(k, rows, hdrs, pcs, tStack, t0, v0);
    BillIdle(k);
  }

  /** main's loop over the boot table: every entry is booted in turn, each kernel task's stack cut from ktsb. */
  method BootLoop(k: Kernel, rows: seq<BootImage>, hdrs: seq<Exec>, pcs: seq<bv32>, tStack: Protect.u32,
                  ghost t0: seq<Proc>, ghost v0: seq<Priv>) returns (ktsb: Protect.u32)
    requires k.Valid() && t0 == k.proc[..] && v0 == k.priv[..] && Cleared(t0, v0) && Bootable(rows)
    requires forall q :: 0 <= q < NR_SCHED_QUEUES ==> k.readyQ[q] == []
    requires |hdrs| == NR_BOOT_PROCS - NR_TASKS + 1 && |pcs| == NR_BOOT_PROCS
    modifies k, k.proc, k.priv, k.nextReady, k.rdyHead, k.rdyTail
    ensures k.Valid() && Progress(k, rows, hdrs, pcs, tStack, t0, v0, NR_BOOT_PROCS, ktsb)
  {
    LoopStart(t0, v0, k.readyQ, k.nextPtr, rows, hdrs, pcs, tStack);
    ktsb := tStack;
    var i := 0;
    while i < NR_BOOT_PROCS
      invariant 0 <= i <= NR_BOOT_PROCS && k.Valid()
      // compared with true so that it is checked as one fact, which BootEntry's postcondition gives whole
      invariant Progress(k, rows, hdrs, pcs, tStack, t0, v0, i, ktsb) == true
    {
      ktsb := BootEntry(k, rows, hdrs, pcs, tStack, t0, v0, i, ktsb);
      i := i + 1;
    }
  }

  /** main's last step before restart: bill_ptr is IDLE; nothing else changes. */
  method BillIdle(k: Kernel)
    requires k.Valid()
    modifies k
    ensures k.Valid() && k.billPtr == ProcSlot(IDLE)
    ensures k.readyQ == old(k.readyQ) && k.nextPtr == old(k.nextPtr)
  {
    PointersMove(k.Snap(), k.G(), None, k.procPtr, k.nextPtr, ProcSlot(IDLE));
    k.billPtr := ProcSlot(IDLE);
  }

  /**
   * The boot loop's state before entry n: ktsb past the stacks handed
   * out, the ready queues and next_ptr as the entries before n left them,
   * their slots and records booted and the rest as they were.
   */
  ghost predicate Progress(k: Kernel, rows: seq<BootImage>, hdrs: seq<Exec>, pcs: seq<bv32>, tStack: Protect.u32,
                           t0: seq<Proc>, v0: seq<Priv>, n: nat, ktsb: Protect.u32)
    reads k, k.proc, k.priv
    requires Bootable(rows) && n <= NR_BOOT_PROCS
    requires |hdrs| == NR_BOOT_PROCS - NR_TASKS + 1 && |pcs| == NR_BOOT_PROCS
    requires k.proc.Length == |t0| == NR_SLOTS && k.priv.Length == |v0| == NR_SYS_PROCS
  {
    LoopState(k.proc[..], k.priv[..], k.readyQ, k.nextPtr, rows, hdrs, pcs, tStack, t0, v0, n, ktsb)
  }

  /** Progress over the values of the tables, the ready queues and next_ptr. */
  ghost predicate LoopState(t: seq<Proc>, v: seq<Priv>, rq: seq<seq<nat>>, np: nat,
                            rows: seq<BootImage>, hdrs: seq<Exec>, pcs: seq<bv32>, tStack: Protect.u32,
                            t0: seq<Proc>, v0: seq<Priv>, n: nat, ktsb: Protect.u32)
    requires Bootable(rows) && n <= NR_BOOT_PROCS
    requires |hdrs| == NR_BOOT_PROCS - NR_TASKS + 1 && |pcs| == NR_BOOT_PROCS
    requires |t| == |t0| == NR_SLOTS && |v| == |v0| == NR_SYS_PROCS
  {
    && ktsb == Ktsb(rows, tStack, n)
    && rq == BootQueues(rows, n)
    && (n > 0 ==> Lowest(rq, 0).Some? && np == Lowest(rq, 0).value)
    && Booted(t, t0, rows, hdrs, pcs, tStack, n) && Untouched(t, t0, rows, n)
    && BootedRecords(v, v0, rows, n)
  }

  /** One pass of the boot loop: entry i is booted from ktsb, and the loop's state moves on to entry i + 1. */
  method BootEntry(k: Kernel, rows: seq<BootImage>, hdrs: seq<Exec>, pcs: seq<bv32>, tStack: Protect.u32,
                   ghost t0: seq<Proc>, ghost v0: seq<Priv>, i: nat, ktsb: Protect.u32) returns (ktsb': Protect.u32)
    requires k.Valid() && Cleared(t0, v0) && Bootable(rows) && i < NR_BOOT_PROCS
    requires |hdrs| == NR_BOOT_PROCS - NR_TASKS + 1 && |pcs| == NR_BOOT_PROCS
    requires Progress(k, rows, hdrs, pcs, tStack, t0, v0, i, ktsb)
    modifies k, k.proc, k.priv, k.nextReady, k.rdyHead, k.rdyTail
    ensures k.Valid() && Progress(k, rows, hdrs, pcs, tStack, t0, v0, i + 1, ktsb')
  {
    ghost var t1, v1, rq1, np1 := k.proc[..], k.priv[..], k.readyQ, k.nextPtr;
    EntryReady(t1, v1, rq1, np1, rows, hdrs, pcs, tStack, t0, v0, i, ktsb);
    assert SlotOk(k.proc[SlotOf(rows[i])], SlotOf(rows[i]));
    ktsb' := BootRow(k, rows[i], RowPriv(i), hdrs[HdrIndex(rows, i)], pcs[i], ktsb);
    LoopStep(t1, v1, rq1, np1, k.proc[..], k.priv[..], k.readyQ, k.nextPtr, rows, hdrs, pcs, tStack, t0, v0, i, ktsb, ktsb');
  }

  /** Before the first entry nothing is booted: ktsb is t_stack and the ready queues are empty. */
  lemma LoopStart(t0: seq<Proc>, v0: seq<Priv>, rq: seq<seq<nat>>, np: nat,
                  rows: seq<BootImage>, hdrs: seq<Exec>, pcs: seq<bv32>, tStack: Protect.u32)
    requires Cleared(t0, v0) && Bootable(rows)
    requires |rq| == NR_SCHED_QUEUES && forall q :: 0 <= q < NR_SCHED_QUEUES ==> rq[q] == []
    requires |hdrs| == NR_BOOT_PROCS - NR_TASKS + 1 && |pcs| == NR_BOOT_PROCS
    ensures LoopState(t0, v0, rq, np, rows, hdrs, pcs, tStack, t0, v0, 0, tStack)
  {
    assert rq == BootQueues(rows, 0);
  }

  /** Before entry i, its slot is still free and get_priv's search would hand out the record RowPriv gives it. */
  lemma EntryReady(t: seq<Proc>, v: seq<Priv>, rq: seq<seq<nat>>, np: nat,
                   rows: seq<BootImage>, hdrs: seq<Exec>, pcs: seq<bv32>, tStack: Protect.u32,
                   t0: seq<Proc>, v0: seq<Priv>, i: nat, ktsb: Protect.u32)
    requires Cleared(t0, v0) && Bootable(rows) && i < NR_BOOT_PROCS
    requires |hdrs| == NR_BOOT_PROCS - NR_TASKS + 1 && |pcs| == NR_BOOT_PROCS
    requires |t| == NR_SLOTS && |v| == NR_SYS_PROCS
    requires LoopState(t, v, rq, np, rows, hdrs, pcs, tStack, t0, v0, i, ktsb)
    ensures t[SlotOf(rows[i])].rts == {SlotFree}
    ensures if SysEntry(rows[i]) then KSystem.FreePrivFrom(v, 0) == Some(RowPriv(i)) else RowPriv(i) == USER_PRIV_ID
  {
    assert t[SlotOf(rows[i])] == t0[SlotOf(rows[i])];
    if i < NR_BOOT_PROCS - 1 {
      RecordsBeforeBound(v, v0, rows, i);
    }
  }

  /** What BootRow does to the values for entry i moves the loop's state on to entry i + 1. */
  lemma LoopStep(t1: seq<Proc>, v1: seq<Priv>, rq1: seq<seq<nat>>, np1: nat,
                 t2: seq<Proc>, v2: seq<Priv>, rq2: seq<seq<nat>>, np2: nat,
                 rows: seq<BootImage>, hdrs: seq<Exec>, pcs: seq<bv32>, tStack: Protect.u32,
                 t0: seq<Proc>, v0: seq<Priv>, i: nat, ktsb: Protect.u32, ktsb': Protect.u32)
    requires Cleared(t0, v0) && Bootable(rows) && i < NR_BOOT_PROCS
    requires |hdrs| == NR_BOOT_PROCS - NR_TASKS + 1 && |pcs| == NR_BOOT_PROCS
    requires |t1| == NR_SLOTS && |v1| == NR_SYS_PROCS
    requires LoopState(t1, v1, rq1, np1, rows, hdrs, pcs, tStack, t0, v0, i, ktsb)
    requires ktsb' == NextKtsb(ktsb, rows[i])
    requires |t1[SlotOf(rows[i])].memmap| == NR_LOCAL_SEGS && RegsOk(t1[SlotOf(rows[i])].regs)
    requires t2 == t1[SlotOf(rows[i]) := BootProc(t1[SlotOf(rows[i])], rows[i], RowPriv(i), hdrs[HdrIndex(rows, i)], pcs[i], ktsb')]
    requires v2 == v1[RowPriv(i) := BootPriv(v1[RowPriv(i)], rows[i])]
    requires rq2 == if rows[i].procNr == HARDWARE then rq1 else Inserted(rq1, rows[i].priority, SlotOf(rows[i]), true)
    requires rows[i].procNr != HARDWARE ==> Lowest(rq2, 0).Some? && np2 == Lowest(rq2, 0).value
    requires rows[i].procNr == HARDWARE ==> np2 == np1
    ensures LoopState(t2, v2, rq2, np2, rows, hdrs, pcs, tStack, t0, v0, i + 1, ktsb')
  {
    assert i == 0 ==> rows[i].procNr == IDLE;
    KtsbStep(rows, tStack, i);
    assert t1[SlotOf(rows[i])] == t0[SlotOf(rows[i])];
    BootedStep(t1, t2, t0, rows, hdrs, pcs, tStack, i);
    BootedRecordsStep(v1, v2, v0, rows, i);
  }

  /** The slots of the entries before n hold their boot values. */
  ghost predicate Booted(t: seq<Proc>, t0: seq<Proc>, rows: seq<BootImage>, hdrs: seq<Exec>, pcs: seq<bv32>, tStack: Protect.u32, n: nat)
    requires |t| == |t0| == NR_SLOTS && Bootable(rows) && n <= NR_BOOT_PROCS
    requires |hdrs| == NR_BOOT_PROCS - NR_TASKS + 1 && |pcs| == NR_BOOT_PROCS
  {
    forall j {:trigger t[SlotOf(rows[j])]} :: 0 <= j < n ==>
      && |t0[SlotOf(rows[j])].memmap| == NR_LOCAL_SEGS && RegsOk(t0[SlotOf(rows[j])].regs)
      && t[SlotOf(rows[j])] == BootProc(t0[SlotOf(rows[j])], rows[j], RowPriv(j), hdrs[HdrIndex(rows, j)], pcs[j], Ktsb(rows, tStack, j + 1))
  }

  /** The slots of the entries from n on, and the slots past the image, are as they were. */
  ghost predicate Untouched(t: seq<Proc>, t0: seq<Proc>, rows: seq<BootImage>, n: nat)
    requires |t| == |t0| == NR_SLOTS && Bootable(rows) && n <= NR_BOOT_PROCS
  {
    && (forall j :: n <= j < NR_BOOT_PROCS ==> t[SlotOf(rows[j])] == t0[SlotOf(rows[j])])
    && (forall x :: NR_BOOT_PROCS <= x < NR_SLOTS ==> t[x] == t0[x])
  }

  /** The records of the entries before n hold their boot values; the records not yet handed out are as they were. */
  ghost predicate BootedRecords(v: seq<Priv>, v0: seq<Priv>, rows: seq<BootImage>, n: nat)
    requires |v| == |v0| == NR_SYS_PROCS && |rows| == NR_BOOT_PROCS && n <= NR_BOOT_PROCS
  {
    && (forall j :: 0 <= j < n ==> v[RowPriv(j)] == BootPriv(v0[RowPriv(j)], rows[j]))
    && (forall r :: 0 <= r < NR_SYS_PROCS && (r > n || (r == 0 && n < NR_BOOT_PROCS)) ==> v[r] == v0[r])
  }

  /** Booting entry i moves both slot predicates on by one entry. */
  lemma BootedStep(t1: seq<Proc>, t2: seq<Proc>, t0: seq<Proc>, rows: seq<BootImage>, hdrs: seq<Exec>, pcs: seq<bv32>, tStack: Protect.u32, i: nat)
    requires |t1| == |t0| == NR_SLOTS && Bootable(rows) && i < NR_BOOT_PROCS
    requires |hdrs| == NR_BOOT_PROCS - NR_TASKS + 1 && |pcs| == NR_BOOT_PROCS
    requires Booted(t1, t0, rows, hdrs, pcs, tStack, i) && Untouched(t1, t0, rows, i)
    requires |t0[SlotOf(rows[i])].memmap| == NR_LOCAL_SEGS && RegsOk(t0[SlotOf(rows[i])].regs)
    requires t2 == t1[SlotOf(rows[i]) := BootProc(t1[SlotOf(rows[i])], rows[i], RowPriv(i), hdrs[HdrIndex(rows, i)], pcs[i], Ktsb(rows, tStack, i + 1))]
    ensures Booted(t2, t0, rows, hdrs, pcs, tStack, i + 1) && Untouched(t2, t0, rows, i + 1)
  {
    var x := SlotOf(rows[i]);
    forall j | 0 <= j < NR_BOOT_PROCS && j != i
      ensures t2[SlotOf(rows[j])] == t1[SlotOf(rows[j])]
    {
      assert rows[i].procNr != rows[j].procNr;
    }
  }

  /** Booting entry i moves the record predicate on by one entry. */
  lemma BootedRecordsStep(v1: seq<Priv>, v2: seq<Priv>, v0: seq<Priv>, rows: seq<BootImage>, i: nat)
    requires |v1| == |v0| == NR_SYS_PROCS && |rows| == NR_BOOT_PROCS && i < NR_BOOT_PROCS
    requires BootedRecords(v1, v0, rows, i)
    requires v2 == v1[RowPriv(i) := BootPriv(v1[RowPriv(i)], rows[i])]
    ensures BootedRecords(v2, v0, rows, i + 1)
  {
  }

  /**
   * Before entry i < NR_BOOT_PROCS - 1, records 1..i are bound and record
   * 0 is the user record, so get_priv's search hands out record i + 1.
   */
  lemma RecordsBeforeBound(v: seq<Priv>, v0: seq<Priv>, rows: seq<BootImage>, i: nat)
    requires |v| == |v0| == NR_SYS_PROCS && Bootable(rows) && i < NR_BOOT_PROCS - 1
    requires forall r :: 0 <= r < NR_SYS_PROCS ==> v0[r].procNr == NONE && v0[r].id == r
    requires BootedRecords(v, v0, rows, i)
    ensures KSystem.FreePrivFrom(v, 0) == Some(i + 1)
  {
    forall j | 0 <= j < i + 1
      ensures !KSystem.Unbound(v[j])
    {
      if j > 0 {
        assert RowPriv(j - 1) == j;
      }
    }
    FirstFree(v, i + 1);
  }

  /** ktsb after entry i is entry i's step from ktsb before it. */
  lemma KtsbStep(rows: seq<BootImage>, tStack: Protect.u32, i: nat)
    requires i < |rows|
    ensures Ktsb(rows, tStack, i + 1) == NextKtsb(Ktsb(rows, tStack, i), rows[i])
  {
    var ip := rows[i];
    var d := if IsKernelN(ip.procNr) then ip.stkSize else 0;
    var a := tStack + StackUsed(rows, i);
    assert StackUsed(rows, i + 1) == StackUsed(rows, i) + d;
    Wrap32Add(a, d);
  }

  /** Adding to a value already reduced to 32 bits wraps the same as adding to the full value. */
  lemma Wrap32Add(a: int, d: int)
    ensures (a % TWO32 + d) % TWO32 == (a + d) % TWO32
  {
    assert a == (a / TWO32) * TWO32 + a % TWO32;
    ModShift(a % TWO32 + d, a / TWO32);
  }

  /** Adding a multiple of 2^32 does not change a value's low 32 bits. */
  lemma ModShift(b: int, q: int)
    ensures (b + q * TWO32) % TWO32 == b % TWO32
  {
  }

  // ---------------------------------------------------------------------
  // prepare_shutdown

  /** A process prepare_shutdown signals: a live system process that is not a kernel task. */
  predicate ShutdownTarget(p: Proc, v: Priv)
  {
    !IsEmpty(p) && SysProc in v.flags && !IsKernelN(p.nr)
  }

  /** The slots below n that prepare_shutdown signals, in table order. */
  function Targets(t: seq<Proc>, v: seq<Priv>, n: nat): (r: seq<nat>)
    requires n <= |t|
    ensures forall j :: 0 <= j < |r| ==> r[j] < n && t[r[j]].privId < |v| && ShutdownTarget(t[r[j]], v[t[r[j]].privId])
    ensures forall j, l :: 0 <= j < l < |r| ==> r[j] < r[l]
  {
    if n == 0 then []
    else if t[n - 1].privId < |v| && ShutdownTarget(t[n - 1], v[t[n - 1].privId]) then Targets(t, v, n - 1) + [n - 1]
    else Targets(t, v, n - 1)
  }

  /** Targets misses no slot: every live, non-kernel system process below n is in it. */
  lemma {:induction false} TargetsComplete(t: seq<Proc>, v: seq<Priv>, n: nat, y: nat)
    requires y < n <= |t| && t[y].privId < |v| && ShutdownTarget(t[y], v[t[y].privId])
    ensures y in Targets(t, v, n)
  {
    if y < n - 1 {
      TargetsComplete(t, v, n - 1, y);
    }
  }

  /** t, v keep t0, v0's owners and system flags, and the emptiness of every slot from `from` on: what decides who is a target there. */
  ghost predicate SameTargets(t0: seq<Proc>, v0: seq<Priv>, t: seq<Proc>, v: seq<Priv>, from: nat)
  {
    && |t| == |t0| && |v| == |v0|
    && (forall y :: 0 <= y < |t0| ==> t[y].nr == t0[y].nr && t[y].privId == t0[y].privId)
    && (forall y :: from <= y < |t0| ==> IsEmpty(t[y]) == IsEmpty(t0[y]))
    && (forall j :: 0 <= j < |v0| ==> v[j].flags == v0[j].flags)
  }

  /** A signal sent to slot x keeps every later slot's target status. */
  lemma SignalKeepsTargets(t0: seq<Proc>, v0: seq<Priv>, t1: seq<Proc>, v1: seq<Priv>, t2: seq<Proc>, v2: seq<Priv>, x: nat, pv: nat)
    requires SameTargets(t0, v0, t1, v1, x) && pv < |v1| == |v2|
    requires Notified(t1, t2, x)
    requires v2 == v1[pv := v2[pv]] && v2[pv].flags == v1[pv].flags
    ensures SameTargets(t0, v0, t2, v2, x + 1)
  {
  }

  /** HZ: clock ticks per second, the system headers' value. */
  const HZ: int := 60
  /** PANIC_DUMPS: the request for TTY's debug dumps, the system headers' value. */
  const PANIC_DUMPS: int := 97

  /** The dump request prepare_shutdown sends TTY: only m_type is set; the other fields are modelled as zero. */
  function DumpRequest(): (m: Message)
    ensures m.Message? && m.mtype == PANIC_DUMPS
  {
    Message(0, PANIC_DUMPS, [])
  }

  /** shutdown_started and shutdown_timer: the flag and the watchdog timer prepare_shutdown sets. */
  class ShutdownState {
    /** shutdown_started. */
    var started: bool
    /** shutdown_timer's expiry, TMR_NEVER as None. */
    var timerExp: Option<int>
    /** tmr_arg(&shutdown_timer)->ta_int: the shutdown status. */
    var timerArg: int
  }

  /**
   * prepare_shutdown: on a panic, the dump request goes to TTY without
   * blocking, as mini_send(proc_ptr, TTY, m, NON_BLOCKING); when TTY
   * takes it nothing else happens.  Otherwise SIGKSTOP is sent to every
   * live system process that is not a kernel task, in table order (the
   * result lists the slots signalled), shutdown_started is set and the
   * shutdown timer is armed HZ ticks from now with the status as its
   * argument.
   */
  method PrepareShutdown(k: Kernel, sd: ShutdownState, how: int, uptime: int) returns (dumped: bool, signalled: seq<nat>)
    requires k.Valid()
    modifies k, k.proc, k.priv, k.nextReady, k.qLink, k.callerHead, k.rdyHead, k.rdyTail, sd
    ensures k.Valid()
    ensures dumped == (how == RBT_PANIC && old(SendVerdict(k.proc[..], k.rank, k.procPtr, ProcSlot(TTY_PROC_NR), true)) == OK)
    ensures dumped ==>
      && SendDone(old(k.proc[..]), old(k.priv[..]), old(k.callerQ), old(k.ReadyState()), k.proc[..], k.callerQ, k.ReadyState(),
                  old(k.procPtr), ProcSlot(TTY_PROC_NR), DumpRequest(), OK)
      && k.priv[..] == old(k.priv[..]) && signalled == []
      && sd.started == old(sd.started) && sd.timerExp == old(sd.timerExp) && sd.timerArg == old(sd.timerArg)
    ensures !dumped ==>
      && signalled == Targets(old(k.proc[..]), old(k.priv[..]), NR_SLOTS)
      && (OwnPrivs(old(k.proc[..]), old(k.priv[..])) ==> StopReached(k.proc[..], k.priv[..], signalled))
      && SameTargets(old(k.proc[..]), old(k.priv[..]), k.proc[..], k.priv[..], NR_SLOTS)
      && Untargeted(old(k.proc[..]), old(k.priv[..]), k.proc[..], k.priv[..], signalled)
      && sd.started && sd.timerExp == Some(uptime + HZ) && sd.timerArg == how
  {
    ghost var t0, v0 := k.proc[..], k.priv[..];
    dumped := false;
    if how == RBT_PANIC {
      var r := RequestDumps(k);
      dumped := r == OK;
    }
    if dumped {
      return true, [];
    }
    assert k.proc[..] == t0 && k.priv[..] == v0;
    signalled := StopAll(k, sd, how, uptime);
  }

  /** prepare_shutdown without the dumps: SIGKSTOP to the system processes, then shutdown_started and the shutdown timer. */
  method StopAll(k: Kernel, sd: ShutdownState, how: int, uptime: int) returns (signalled: seq<nat>)
    requires k.Valid()
    modifies k, k.proc, k.priv, k.nextReady, k.rdyHead, k.rdyTail, sd
    ensures k.Valid()
    ensures signalled == Targets(old(k.proc[..]), old(k.priv[..]), NR_SLOTS)
    ensures OwnPrivs(old(k.proc[..]), old(k.priv[..])) ==> StopReached(k.proc[..], k.priv[..], signalled)
    ensures SameTargets(old(k.proc[..]), old(k.priv[..]), k.proc[..], k.priv[..], NR_SLOTS)
    ensures Untargeted(old(k.proc[..]), old(k.priv[..]), k.proc[..], k.priv[..], signalled)
    ensures sd.started && sd.timerExp == Some(uptime + HZ) && sd.timerArg == how
  {
    signalled := SignalAll(k, uptime);
    Arm(sd, how, uptime);
  }

  /** shutdown_started = 1, and shutdown_timer set HZ ticks after uptime with the status as its argument. */
  method Arm(sd: ShutdownState, how: int, uptime: int)
    modifies sd
    ensures sd.started && sd.timerExp == Some(uptime + HZ) && sd.timerArg == how
  {
    sd.started := true;
    sd.timerArg := how;
    sd.timerExp := Some(uptime + HZ);
  }

  /** prepare_shutdown's nb_send of the dump request from proc_ptr to TTY: mini_send's outcome, with the records untouched. */
  method RequestDumps(k: Kernel) returns (r: int)
    requires k.Valid()
    modifies k, k.proc, k.nextReady, k.qLink, k.callerHead, k.rdyHead, k.rdyTail
    ensures k.Valid() && k.procPtr == old(k.procPtr)
    ensures r == old(SendVerdict(k.proc[..], k.rank, k.procPtr, ProcSlot(TTY_PROC_NR), true))
    ensures SendDone(old(k.proc[..]), k.priv[..], old(k.callerQ), old(k.ReadyState()), k.proc[..], k.callerQ, k.ReadyState(),
                     old(k.procPtr), ProcSlot(TTY_PROC_NR), DumpRequest(), r)
    ensures r != OK ==> k.proc[..] == old(k.proc[..])
    ensures k.priv[..] == old(k.priv[..])
  {
    r := k.MiniSend(k.procPtr, ProcSlot(TTY_PROC_NR), DumpRequest(), true);
  }

  /** prepare_shutdown's loop: every slot in table order, each target signalled. */
  method SignalAll(k: Kernel, uptime: int) returns (signalled: seq<nat>)
    requires k.Valid()
    modifies k, k.proc, k.priv, k.nextReady, k.rdyHead, k.rdyTail
    ensures k.Valid()
    ensures signalled == Targets(old(k.proc[..]), old(k.priv[..]), NR_SLOTS)
    ensures SameTargets(old(k.proc[..]), old(k.priv[..]), k.proc[..], k.priv[..], NR_SLOTS)
    ensures OwnPrivs(old(k.proc[..]), old(k.priv[..])) ==> StopReached(k.proc[..], k.priv[..], signalled)
    ensures Untargeted(old(k.proc[..]), old(k.priv[..]), k.proc[..], k.priv[..], signalled)
  {
    ghost var t0 := k.proc[..];
    ghost var v0 := k.priv[..];
    signalled := [];
    var x: nat := 0;
    while x < NR_SLOTS
      invariant x <= NR_SLOTS
      // compared with true so that it is checked as one fact, which SignalSlot's postcondition gives whole
      invariant Signalling(k, t0, v0, x, signalled) == true
    {
      signalled := SignalSlot(k, x, uptime, t0, v0, signalled);
      x := x + 1;
    }
  }

  /**
   * Every system process owns its privilege record: no other slot points
   * at a record whose flags include SYS_PROC (get_priv gives each system
   * process a free record of its own; user processes share one without it).
   */
  ghost predicate OwnPrivs(t: seq<Proc>, v: seq<Priv>)
  {
    forall i, j :: 0 <= i < |t| && 0 <= j < |t| && i != j && t[i].privId < |v| && SysProc in v[t[i].privId].flags ==>
      t[i].privId != t[j].privId
  }

  /** SIGKSTOP has reached every slot listed in signalled. */
  ghost predicate StopReached(t: seq<Proc>, v: seq<Priv>, signalled: seq<nat>)
  {
    forall j :: 0 <= j < |signalled| && signalled[j] < |t| && t[signalled[j]].privId < |v| ==>
      KSignal.SigReached(t[signalled[j]], v[t[signalled[j]].privId], SIGKSTOP)
  }

  /**
   * A signal sent to slot x (x's entry notified, only record pv changed)
   * keeps a signal that had reached another slot y whose record is not pv.
   */
  lemma SigKept(t1: seq<Proc>, v1: seq<Priv>, t2: seq<Proc>, v2: seq<Priv>, x: nat, pv: nat, y: nat, sig: int)
    requires Notified(t1, t2, x) && pv < |v1| == |v2| && v2 == v1[pv := v2[pv]]
    requires y < |t1| && y != x && t1[y].privId < |v1| && t1[y].privId != pv
    requires KSignal.SigReached(t1[y], v1[t1[y].privId], sig)
    ensures t2[y] == t1[y] && KSignal.SigReached(t2[y], v2[t2[y].privId], sig)
  {
  }

  /** Signalling slot x, which uses record t0[x].privId, keeps Untargeted with x listed. */
  lemma UntargetedStep(t0: seq<Proc>, v0: seq<Priv>, t1: seq<Proc>, v1: seq<Priv>, t2: seq<Proc>, v2: seq<Priv>, x: nat, signalled: seq<nat>)
    requires Untargeted(t0, v0, t1, v1, signalled) && x < |t0| && x !in signalled
    requires t1[x].privId == t0[x].privId && t0[x].privId < |v1|
    requires Notified(t1, t2, x) && |v2| == |v1| && v2 == v1[t0[x].privId := v2[t0[x].privId]]
    ensures Untargeted(t0, v0, t2, v2, signalled + [x])
  {
    var s := signalled + [x];
    assert t0[x].privId in PrivsOf(t0, s) by { assert s[|signalled|] == x; }
  }

  /** Signalling slot x adds it to the slots SIGKSTOP has reached and, system processes owning their records, loses none of the earlier ones. */
  lemma StopStep(t0: seq<Proc>, v0: seq<Priv>, t1: seq<Proc>, v1: seq<Priv>, t2: seq<Proc>, v2: seq<Priv>, x: nat, pv: nat, signalled: seq<nat>)
    requires OwnPrivs(t0, v0) && x < |t0| && SameTargets(t0, v0, t1, v1, x) && signalled == Targets(t0, v0, x)
    requires StopReached(t1, v1, signalled)
    requires pv == t1[x].privId && pv < |v1| && ShutdownTarget(t1[x], v1[pv])
    requires Notified(t1, t2, x) && |v2| == |v1| && v2 == v1[pv := v2[pv]]
    requires KSignal.SigReached(t2[x], v2[pv], SIGKSTOP)
    ensures StopReached(t2, v2, signalled + [x])
  {
    var s := signalled + [x];
    forall j | 0 <= j < |s| && s[j] < |t2| && t2[s[j]].privId < |v2|
      ensures KSignal.SigReached(t2[s[j]], v2[t2[s[j]].privId], SIGKSTOP)
    {
      if j < |signalled| {
        var y := signalled[j];
        assert y < x && SysProc in v0[t0[y].privId].flags;
        assert t0[y].privId != t0[x].privId;
        SigKept(t1, v1, t2, v2, x, pv, y, SIGKSTOP);
      }
    }
  }

  /** prepare_shutdown's loop before slot x: the kernel valid, the targets unchanged and those below x signalled, in order, each reached by SIGKSTOP when system processes own their records. */
  ghost predicate Signalling(k: Kernel, t0: seq<Proc>, v0: seq<Priv>, x: nat, signalled: seq<nat>)
    reads k, k.proc, k.priv, k.nextReady, k.qLink, k.callerHead, k.rdyHead, k.rdyTail
  {
    && k.Valid() && x <= |t0|
    && SameTargets(t0, v0, k.proc[..], k.priv[..], x)
    && signalled == Targets(t0, v0, x)
    && (OwnPrivs(t0, v0) ==> StopReached(k.proc[..], k.priv[..], signalled))
    && Untargeted(t0, v0, k.proc[..], k.priv[..], signalled)
  }

  /** The privilege records of the slots listed in s, in table t. */
  ghost function PrivsOf(t: seq<Proc>, s: seq<nat>): set<nat>
  {
    set i | 0 <= i < |s| && s[i] < |t| :: t[s[i]].privId
  }

  /** Every slot not listed in signalled, and every record none of them uses, is as it was in t0 and v0. */
  ghost predicate Untargeted(t0: seq<Proc>, v0: seq<Priv>, t: seq<Proc>, v: seq<Priv>, signalled: seq<nat>)
  {
    && |t| == |t0| && |v| == |v0|
    && (forall y :: 0 <= y < |t0| && y !in signalled ==> t[y] == t0[y])
    && (forall j :: 0 <= j < |v0| && j !in PrivsOf(t0, signalled) ==> v[j] == v0[j])
  }

  /** One step of prepare_shutdown's loop: slot x is signalled exactly when it was a target in the table the loop started from. */
  method SignalSlot(k: Kernel, x: nat, uptime: int, ghost t0: seq<Proc>, ghost v0: seq<Priv>, signalled: seq<nat>) returns (signalled': seq<nat>)
    requires x < NR_SLOTS && Signalling(k, t0, v0, x, signalled)
    modifies k, k.proc, k.priv, k.nextReady, k.rdyHead, k.rdyTail
    ensures Signalling(k, t0, v0, x + 1, signalled')
    ensures signalled' == signalled + if t0[x].privId < |v0| && ShutdownTarget(t0[x], v0[t0[x].privId]) then [x] else []
  {
    var p := k.proc[x];
    ghost var t1 := k.proc[..];
    ghost var v1 := k.priv[..];
    if ShutdownTarget(p, k.priv[p.privId]) {
      KSignal.SendSig(k, x, SIGKSTOP, uptime);
      SignalKeepsTargets(t0, v0, t1, v1, k.proc[..], k.priv[..], x, p.privId);
      UntargetedStep(t0, v0, t1, v1, k.proc[..], k.priv[..], x, signalled);
      signalled' := signalled + [x];
      if OwnPrivs(t0, v0) {
        StopStep(t0, v0, t1, v1, k.proc[..], k.priv[..], x, p.privId, signalled);
      }
    } else {
      signalled' := signalled;
    }
  }
}
