/**
 * The process and privilege tables of the MINIX 3 kernel (kernel/proc.h,
 * kernel/priv.h) as values, and the invariant that ties the linked ready
 * queues (`rdy_head`/`rdy_tail`/`p_nextready`) and caller queues
 * (`p_caller_q`/`p_q_link`) to the sequences of slots they hold.
 *
 * The runtime flags (a char) and the privilege flags (a short) are sets of
 * named flags here; RtsBit and PFlagBit give each flag its bit, and the
 * bit maps of a privilege record (sys_map_t, irq_id_t, sigset_t) are sets
 * of the bit numbers they hold (see Bitmap.SetBitIsInsert).
 */
module KState {
  import opened KConst
  import opened Seqs
  import opened Links

  // ---------------------------------------------------------------------
  // Flags

  /** The runtime flags of p_rts_flags. */
  datatype Rts = SlotFree | NoMap | Sending | Receiving | Signaled | SigPending | PStop | NoPriv

  /** The bit of each runtime flag in p_rts_flags. */
  function RtsBit(f: Rts): (b: bv8)
    ensures b in RtsFlags
  {
    match f
    case SlotFree => SLOT_FREE
    case NoMap => NO_MAP
    case Sending => SENDING
    case Receiving => RECEIVING
    case Signaled => SIGNALED
    case SigPending => SIG_PENDING
    case PStop => P_STOP
    case NoPriv => NO_PRIV
  }

  /** Different flags have different bits, so a set of flags is a char and back. */
  lemma RtsBitOneToOne(f: Rts, g: Rts)
    ensures RtsBit(f) == RtsBit(g) <==> f == g
  {
    match f
    case SlotFree => {} case NoMap => {} case Sending => {} case Receiving => {}
    case Signaled => {} case SigPending => {} case PStop => {} case NoPriv => {}
  }

  /** The privilege flags of s_flags. */
  datatype PFlag = Preemptible | Billable | SysProc | SendrecBusy

  /** The bit of each privilege flag in s_flags. */
  function PFlagBit(f: PFlag): (b: bv16)
    ensures b in {PREEMPTIBLE, BILLABLE, SYS_PROC, SENDREC_BUSY}
  {
    match f
    case Preemptible => PREEMPTIBLE
    case Billable => BILLABLE
    case SysProc => SYS_PROC
    case SendrecBusy => SENDREC_BUSY
  }

  lemma PFlagBitOneToOne(f: PFlag, g: PFlag)
    ensures PFlagBit(f) == PFlagBit(g) <==> f == g
  {
    match f
    case Preemptible => {} case Billable => {} case SysProc => {} case SendrecBusy => {}
  }

  // ---------------------------------------------------------------------
  // Messages

  /** What a notification carries in NOTIFY_ARG. */
  datatype NotifyArg =
    | Unset                   // left as it was: only HARDWARE and SYSTEM fill it in
    | IrqIds(ids: set<nat>)   // s_int_pending of the receiver, from HARDWARE
    | Signals(sigs: set<int>) // s_sig_pending of the receiver, from SYSTEM

  /**
   * A message as it sits in a process's message buffer: an ordinary message
   * with its payload words, or a notification assembled by the kernel.
   */
  datatype Message =
    | Message(source: int, mtype: int, data: seq<int>)
    | Notice(source: int, mtype: int, timestamp: int, arg: NotifyArg)

  const NOTIFY_MESSAGE: int := 0x1000

  /** NOTIFY_FROM(p): the message type of a notification from p. */
  function NotifyFrom(src: int): int
  {
    NOTIFY_MESSAGE + src + NR_TASKS
  }

  // ---------------------------------------------------------------------
  // Registers

  /**
   * struct stackframe_s: the 16-bit segment registers gs, fs, es, ds, then
   * fourteen 32-bit words di, si, fp, st, bx, dx, cx, retreg, retadr, pc,
   * cs, psw, sp, ss.
   */
  datatype Regs = Regs(segs: seq<bv16>, words: seq<bv32>)

  const W_RETREG: nat := 7
  const W_PC: nat := 9
  const W_CS: nat := 10
  const W_PSW: nat := 11
  const W_SP: nat := 12
  const W_SS: nat := 13

  predicate RegsOk(r: Regs)
  {
    |r.segs| == 4 && |r.words| == 14
  }

  // ---------------------------------------------------------------------
  // Table entries

  /** struct far_mem: a remote memory segment of a system process. */
  datatype FarMem = FarMem(inUse: bool, memPhys: nat, memLen: nat)

  /**
   * struct proc, without the queue links p_nextready, p_caller_q and
   * p_q_link, which the kernel object keeps in arrays of their own.
   */
  datatype Proc = Proc(
    nr: int,
    privId: nat,
    rts: set<Rts>,
    priority: int,
    maxPriority: int,
    ticksLeft: int,
    quantumSize: int,
    memmap: seq<MemMap>,
    userTime: int,
    sysTime: int,
    messBuf: Message,
    getFrom: int,
    sendTo: int,
    pending: set<int>,
    regs: Regs,
    ldtSel: int,
    name: string)

  /** struct priv; the alarm timer lives in the clock's timer list. */
  datatype Priv = Priv(
    procNr: int,
    id: nat,
    flags: set<PFlag>,
    trapMask: set<int>,
    ipcTo: set<int>,
    callMask: set<int>,
    notifyPending: set<nat>,
    intPending: set<nat>,
    sigPending: set<int>,
    farmem: seq<FarMem>,
    stackGuard: Option<bv32>)

  /** isemptyp: the flags are SLOT_FREE and nothing else. */
  predicate IsEmpty(p: Proc)
  {
    p.rts == {SlotFree}
  }

  // ---------------------------------------------------------------------
  // The kernel's tables as one value

  /** The kernel's tables and pointers at one moment. */
  datatype KSnap = KSnap(
    procs: seq<Proc>,
    privs: seq<Priv>,
    nextReady: seq<Option<nat>>,
    qLink: seq<Option<nat>>,
    callerHead: seq<Option<nat>>,
    heads: seq<Option<nat>>,
    tails: seq<Option<nat>>,
    procPtr: nat,
    nextPtr: nat,
    billPtr: nat)

  /** The ghost description of the queues: each ready queue and each caller queue as the slots it holds, and a rank that decreases along p_sendto. */
  datatype Queues = Queues(ready: seq<seq<nat>>, callers: seq<seq<nat>>, rank: seq<nat>)

  /** Slot i holds process number i - NR_TASKS, a privilege record, priorities that name queues, a three-segment memory map and a full stack frame. */
  predicate SlotOk(p: Proc, i: int)
  {
    && p.nr == i - NR_TASKS && p.privId < NR_SYS_PROCS
    && 0 <= p.priority < NR_SCHED_QUEUES && 0 <= p.maxPriority < NR_SCHED_QUEUES
    && |p.memmap| == NR_LOCAL_SEGS && RegsOk(p.regs)
  }

  /** Record i has s_id i, NR_REMOTE_SEGS far-memory entries, and only holds pending notifications from privilege ids. */
  predicate PrivOk(v: Priv, i: int)
  {
    v.id == i && |v.farmem| == NR_REMOTE_SEGS && forall b :: b in v.notifyPending ==> b < NR_SYS_PROCS
  }

  ghost predicate Shape(s: KSnap)
  {
    && |s.procs| == NR_SLOTS && |s.privs| == NR_SYS_PROCS
    && |s.nextReady| == NR_SLOTS && |s.qLink| == NR_SLOTS && |s.callerHead| == NR_SLOTS
    && |s.heads| == NR_SCHED_QUEUES && |s.tails| == NR_SCHED_QUEUES
    && s.procPtr < NR_SLOTS && s.nextPtr < NR_SLOTS && s.billPtr < NR_SLOTS
    && (forall i :: 0 <= i < NR_SLOTS ==> SlotOk(s.procs[i], i))
    && (forall i :: 0 <= i < NR_SYS_PROCS ==> PrivOk(s.privs[i], i))
  }

  /** x may stand on ready queue q: it is runnable, has priority q and is not the exempt slot. */
  predicate InReady(t: seq<Proc>, x: nat, q: int, ex: Option<nat>)
  {
    x < |t| && t[x].rts == {} && t[x].priority == q && ex != Some(x)
  }

  /**
   * The ready queues: each is a list through p_nextready whose tail pointer
   * is its last slot; a slot is on queue q iff it is runnable with
   * priority q.  The exempt slot `ex` is on no queue: it is the process
   * enqueue is about to insert, or dequeue has just taken out.
   */
  ghost predicate ReadyOk(s: KSnap, rq: seq<seq<nat>>, ex: Option<nat>)
    requires Shape(s)
  {
    |rq| == NR_SCHED_QUEUES && ReadyLists(s, rq) && ReadyMembers(s.procs, rq, ex)
  }

  /** Each ready queue is a list from its head pointer, and its tail pointer names its last slot. */
  ghost predicate ReadyLists(s: KSnap, rq: seq<seq<nat>>)
    requires Shape(s) && |rq| == NR_SCHED_QUEUES
  {
    forall q :: 0 <= q < NR_SCHED_QUEUES ==> IsList(s.nextReady, s.heads[q], rq[q]) && s.tails[q] == Last(rq[q])
  }

  /** The ready queues hold exactly the runnable processes other than `ex`, each on the queue of its priority. */
  ghost predicate ReadyMembers(t: seq<Proc>, rq: seq<seq<nat>>, ex: Option<nat>)
    requires |t| == NR_SLOTS && |rq| == NR_SCHED_QUEUES && forall i :: 0 <= i < NR_SLOTS ==> 0 <= t[i].priority < NR_SCHED_QUEUES
  {
    && (forall q, k :: 0 <= q < NR_SCHED_QUEUES && 0 <= k < |rq[q]| ==> InReady(t, rq[q][k], q, ex))
    && (forall x :: 0 <= x < NR_SLOTS && t[x].rts == {} && ex != Some(x) ==> x in rq[t[x].priority])
  }

  /** Slot x is blocked sending to the process in slot d. */
  predicate SendsTo(t: seq<Proc>, x: nat, d: int)
  {
    x < |t| && Sending in t[x].rts && t[x].sendTo == d - NR_TASKS
  }

  /** The slot of p's destination, when it names a process. */
  predicate SendSlotOk(p: Proc)
  {
    -NR_TASKS <= p.sendTo < NR_PROCS
  }

  function SendSlot(p: Proc): int
  {
    p.sendTo + NR_TASKS
  }

  /**
   * The caller queues: each slot's p_caller_q starts a list through
   * p_q_link; its members are exactly the processes blocked sending to that
   * slot's process, so a process is SENDING iff it is on exactly one caller
   * queue, that of its p_sendto (SendingOnOneCallerQueue).
   */
  ghost predicate CallerOk(s: KSnap, cq: seq<seq<nat>>)
    requires Shape(s)
  {
    |cq| == NR_SLOTS && CallerLists(s, cq) && CallerMembers(s.procs, cq)
  }

  /** Each caller queue is a list from its p_caller_q through p_q_link. */
  ghost predicate CallerLists(s: KSnap, cq: seq<seq<nat>>)
    requires Shape(s) && |cq| == NR_SLOTS
  {
    forall d :: 0 <= d < NR_SLOTS ==> IsList(s.qLink, s.callerHead[d], cq[d])
  }

  /** The caller queue of d holds exactly the processes blocked sending to d. */
  ghost predicate CallerMembers(t: seq<Proc>, cq: seq<seq<nat>>)
    requires |t| == NR_SLOTS && |cq| == NR_SLOTS
  {
    && (forall d, k :: 0 <= d < NR_SLOTS && 0 <= k < |cq[d]| ==> SendsTo(t, cq[d][k], d))
    && (forall x :: 0 <= x < NR_SLOTS && Sending in t[x].rts ==> SendSlotOk(t[x]) && x in cq[SendSlot(t[x])])
  }

  /** The rank decreases from a sender to its destination, so the p_sendto chains have no cycle. */
  ghost predicate RankOk(s: KSnap, rank: seq<nat>)
    requires Shape(s)
  {
    RankFits(s.procs, rank)
  }

  /** Every SENDING process has a destination of lower rank. */
  ghost predicate RankFits(t: seq<Proc>, rank: seq<nat>)
    requires |t| == NR_SLOTS
  {
    && |rank| == NR_SLOTS
    && forall x :: 0 <= x < NR_SLOTS && Sending in t[x].rts ==> SendSlotOk(t[x]) && rank[SendSlot(t[x])] < rank[x]
  }

  /** The first slot of the first non-empty queue from q on. */
  function Lowest(rq: seq<seq<nat>>, q: nat): Option<nat>
    decreases |rq| - q
  {
    if q >= |rq| then None
    else if |rq[q]| > 0 then Some(rq[q][0])
    else Lowest(rq, q + 1)
  }

  /** next_ptr is the head of the highest-priority non-empty queue. */
  ghost predicate PickOk(s: KSnap, rq: seq<seq<nat>>)
  {
    Lowest(rq, 0).Some? ==> s.nextPtr == Lowest(rq, 0).value
  }

  /** The queue invariant, with `ex` runnable but off the ready queues. */
  ghost predicate Core(s: KSnap, g: Queues, ex: Option<nat>)
  {
    Shape(s) && ReadyOk(s, g.ready, ex) && CallerOk(s, g.callers) && RankOk(s, g.rank)
  }

  /** The whole kernel invariant. */
  ghost predicate Inv(s: KSnap, g: Queues, ex: Option<nat>)
  {
    Core(s, g, ex) && PickOk(s, g.ready)
  }

  // ---------------------------------------------------------------------
  // What the invariant says about one process

  /** A process is runnable iff it is on a ready queue, and then only on the queue of its priority. */
  lemma RunnableOnOneReadyQueue(s: KSnap, g: Queues, x: nat)
    requires Inv(s, g, None) && x < NR_SLOTS
    ensures s.procs[x].rts == {} <==> exists q :: 0 <= q < NR_SCHED_QUEUES && x in g.ready[q]
    ensures forall q :: 0 <= q < NR_SCHED_QUEUES && x in g.ready[q] ==> q == s.procs[x].priority
  {
    forall q | 0 <= q < NR_SCHED_QUEUES && x in g.ready[q]
      ensures q == s.procs[x].priority && s.procs[x].rts == {}
    {
      var k :| 0 <= k < |g.ready[q]| && g.ready[q][k] == x;
      assert InReady(s.procs, g.ready[q][k], q, None);
    }
    if s.procs[x].rts == {} {
      assert x in g.ready[s.procs[x].priority];
    }
  }

  /** A process is SENDING iff it is on a caller queue, and then only on the queue of its destination. */
  lemma SendingOnOneCallerQueue(s: KSnap, g: Queues, x: nat)
    requires Inv(s, g, None) && x < NR_SLOTS
    ensures Sending in s.procs[x].rts <==> exists d :: 0 <= d < NR_SLOTS && x in g.callers[d]
    ensures forall d :: 0 <= d < NR_SLOTS && x in g.callers[d] ==> d == SendSlot(s.procs[x])
  {
    forall d | 0 <= d < NR_SLOTS && x in g.callers[d]
      ensures d == SendSlot(s.procs[x]) && Sending in s.procs[x].rts
    {
      var k :| 0 <= k < |g.callers[d]| && g.callers[d][k] == x;
      assert SendsTo(s.procs, g.callers[d][k], d);
    }
    if Sending in s.procs[x].rts {
      assert x in g.callers[SendSlot(s.procs[x])];
    }
  }
}
