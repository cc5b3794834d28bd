/**
 * sys_trace (kernel/system/do_trace.c): the process manager's debugging
 * requests on a traced user process.  It can stop and resume the process,
 * set the trace bit for a single step, locate a word of its text or data
 * segment, and read or write its saved registers.  The words that
 * phys_copy moves between the segments and the message are not modelled;
 * the requests that touch memory answer with the physical address that
 * umap_local gives.
 */
module KTrace {
  import opened KConst
  import opened Seqs
  import opened Links
  import opened KState
  import opened KQueues
  import opened KIpc
  import opened KProc
  import KMem

  type u32 = KMem.u32

  // ---------------------------------------------------------------------
  // Requests (sys/ptrace.h)

  const T_STOP: int := -1
  const T_GETINS: int := 1
  const T_GETDATA: int := 2
  const T_GETUSER: int := 3
  const T_SETINS: int := 4
  const T_SETDATA: int := 5
  const T_SETUSER: int := 6
  const T_RESUME: int := 7
  const T_STEP: int := 9

  /** sizeof(long): the size of every word moved. */
  const TR_VLSIZE: u32 := 4

  /** sizeof(struct stackframe_s); p_reg is the first member of struct proc. */
  const FRAME_BYTES: nat := 64

  /** Byte offsets of the 16-bit segment registers gs, fs, es and ds in the frame. */
  const OFF_GS: nat := 0
  const OFF_FS: nat := 2
  const OFF_ES: nat := 4
  const OFF_DS: nat := 6
  /** Byte offsets of cs, psw and ss, the words W_CS, W_PSW and W_SS. */
  const OFF_CS: nat := 48
  const OFF_PSW: nat := 52
  const OFF_SS: nat := 60

  /** What a successful request hands back in CTL_DATA, as far as it is modelled. */
  datatype Answer =
    | NoData                 // CTL_DATA is 0 or untouched
    | Addr(pa: u32)          // the physical address of the word read or written
    | Word(w: bv32)          // a word of the saved registers
    | Unmodelled             // a word of struct proc past p_reg

  // ---------------------------------------------------------------------
  // The saved registers as the words of the frame

  function Psw(r: Regs): bv32
    requires RegsOk(r)
  {
    r.words[W_PSW]
  }

  function WithPsw(r: Regs, psw: bv32): (r': Regs)
    requires RegsOk(r)
    ensures RegsOk(r') && Psw(r') == psw && r'.segs == r.segs
    ensures forall i :: 0 <= i < |r.words| && i != W_PSW ==> r'.words[i] == r.words[i]
  {
    r.(words := r.words[W_PSW := psw])
  }

  /** An aligned offset inside the frame. */
  predicate FrameOffset(off: int)
  {
    0 <= off < FRAME_BYTES && off % 4 == 0
  }

  /**
   * The 32-bit word at byte offset off of the frame: the first two hold
   * two segment registers each (low half first), the rest are the words
   * di .. ss.
   */
  function FrameWord(r: Regs, off: int): bv32
    requires RegsOk(r) && FrameOffset(off)
  {
    if off == OFF_GS then (r.segs[0] as bv32) | ((r.segs[1] as bv32) << 16)
    else if off == OFF_ES then (r.segs[2] as bv32) | ((r.segs[3] as bv32) << 16)
    else r.words[(off - 8) / 4]
  }

  /** T_SETUSER's refusals: misaligned, past the last word of the frame, or a segment register. */
  predicate SetUserRefused(off: u32)
  {
    off % 4 != 0 || off > FRAME_BYTES - 4
    || off in {OFF_CS, OFF_DS, OFF_ES, OFF_GS, OFF_FS, OFF_SS}
  }

  /** T_SETUSER: the psw takes only the bits SETPSW lets through; any other word becomes data. */
  function SetUser(r: Regs, off: u32, data: bv32): Regs
    requires RegsOk(r) && !SetUserRefused(off)
  {
    if off == OFF_PSW then WithPsw(r, SetPsw(Psw(r), data))
    else r.(words := r.words[(off - 8) / 4 := data])
  }

  /** T_GETUSER's refusals: misaligned, or past the last word of struct proc (procBytes bytes). */
  predicate GetUserRefused(off: u32, procBytes: nat)
  {
    off % 4 != 0 || off + 4 > procBytes
  }

  /** Two different aligned offsets of the frame name different words. */
  lemma OffsetsDiffer(a: int, b: int)
    requires FrameOffset(a) && FrameOffset(b) && a >= 8 && b >= 8 && a != b
    ensures (a - 8) / 4 != (b - 8) / 4
  {
    assert a - 8 == (a - 8) / 4 * 4;
    assert b - 8 == (b - 8) / 4 * 4;
  }

  /**
   * Writing a register with T_SETUSER and reading it back with T_GETUSER
   * gives the value written (the psw: what SETPSW kept of it); every other
   * word of the frame, the segment registers, cs, ss and the trace bit
   * are as before.
   */
  lemma SetUserThenGetUser(r: Regs, off: u32, data: bv32)
    requires RegsOk(r) && !SetUserRefused(off)
    ensures var r' := SetUser(r, off, data);
      && RegsOk(r') && FrameOffset(off)
      && FrameWord(r', off) == (if off == OFF_PSW then SetPsw(Psw(r), data) else data)
      && (forall o :: FrameOffset(o) && o != off ==> FrameWord(r', o) == FrameWord(r, o))
      && r'.segs == r.segs && r'.words[W_CS] == r.words[W_CS] && r'.words[W_SS] == r.words[W_SS]
      && Psw(r') & TRACEBIT == Psw(r) & TRACEBIT
  {
    var r' := SetUser(r, off, data);
    assert off >= 8 && off != OFF_CS && off != OFF_SS;
    forall o | FrameOffset(o) && o != off
      ensures FrameWord(r', o) == FrameWord(r, o)
    {
      if o >= 8 {
        OffsetsDiffer(o, off);
      }
    }
    if off == OFF_PSW {
      SetPswKeepsTraceBit(Psw(r), data);
    } else {
      OffsetsDiffer(off, OFF_PSW);
      OffsetsDiffer(off, OFF_CS);
      OffsetsDiffer(off, OFF_SS);
    }
  }

  // ---------------------------------------------------------------------
  // Stopping and resuming

  /** T_STOP's new entry: P_STOP set and the trace bit cleared. */
  function Stopped(p: Proc): (p': Proc)
    requires RegsOk(p.regs)
    ensures RegsOk(p'.regs) && PStop in p'.rts && p'.rts != {} && Psw(p'.regs) & TRACEBIT == 0
  {
    p.(rts := p.rts + {PStop}, regs := WithPsw(p.regs, Psw(p.regs) & !TRACEBIT))
  }

  /** T_RESUME's (step false) and T_STEP's (step true) new entry: P_STOP cleared, and the trace bit set by T_STEP. */
  function Resumed(p: Proc, step: bool): (p': Proc)
    requires RegsOk(p.regs)
    ensures RegsOk(p'.regs) && PStop !in p'.rts && (p'.rts == {} <==> p.rts <= {PStop})
    ensures step ==> Psw(p'.regs) & TRACEBIT == TRACEBIT
  {
    p.(rts := p.rts - {PStop}, regs := if step then WithPsw(p.regs, Psw(p.regs) | TRACEBIT) else p.regs)
  }

  /**
   * Resuming a stopped process gives back the entry it had before T_STOP,
   * provided it is resumed the way it ran: by T_STEP if its trace bit was
   * set, by T_RESUME otherwise.
   */
  lemma StopThenResume(p: Proc)
    requires RegsOk(p.regs) && PStop !in p.rts
    ensures Resumed(Stopped(p), Psw(p.regs) & TRACEBIT != 0) == p
  {
    var psw := Psw(p.regs);
    var step := psw & TRACEBIT != 0;
    var q := Resumed(Stopped(p), step);
    TraceBitRestored(psw);
    assert Psw(q.regs) == psw;
    assert q.regs.words == p.regs.words[W_PSW := psw];
    assert q.rts == p.rts;
  }

  /** Clearing the trace bit and setting it again when it was set gives the psw back. */
  lemma TraceBitRestored(psw: bv32)
    ensures (if psw & TRACEBIT != 0 then (psw & !TRACEBIT) | TRACEBIT else psw & !TRACEBIT) == psw
  {
  }

  /**
   * The enqueue test of T_RESUME and T_STEP as written: the process is
   * enqueued whenever its flags end up zero, also when they were zero
   * before and it already stands on a ready queue.
   */
  predicate ResumeEnqueuesAsWritten(rts: set<Rts>)
  {
    rts - {PStop} == {}
  }

  /** The corrected test: only a process that was blocked and is runnable now is enqueued. */
  predicate ResumeEnqueues(rts: set<Rts>)
  {
    rts != {} && rts - {PStop} == {}
  }

  /**
   * T_RESUME on a runnable process that still has ticks left and is not
   * at the head of its queue: the test as written enqueues it, sched puts
   * it at the front, and the queue's links then run from it back into
   * itself, so no ready queue description fits the tables.
   */
  lemma ResumeRequeueCycles(s: KSnap, g: Queues, x: nat, prev: Option<nat>)
    requires Inv(s, g, None) && x < NR_SLOTS && s.procs[x].rts == {} && s.procs[x].ticksLeft > 0
    requires var q := s.procs[x].priority; |g.ready[q]| > 0 && g.ready[q][0] != x
    ensures ResumeEnqueuesAsWritten(s.procs[x].rts) && !ResumeEnqueues(s.procs[x].rts)
    ensures var p := Resumed(s.procs[x], false);
      var pl := Sched(p, prev, x);
      && pl.front && pl.p == s.procs[x] && pl.queue == s.procs[x].priority
      && Shape(Linked(s, x, pl.p, pl.queue, pl.front))
      && forall rq :: !ReadyOk(Linked(s, x, pl.p, pl.queue, pl.front), rq, None)
  {
    var p := s.procs[x];
    assert Resumed(p, false) == p;
    var q := p.priority;
    var l := g.ready[q];
    assert IsList(s.nextReady, s.heads[q], l);
    assert x in l;
    var i :| 0 <= i < |l| && l[i] == x;
    var s' := Linked(s, x, p, q, true);
    assert s'.procs == s.procs && s'.nextReady == s.nextReady[x := s.heads[q]] && s'.heads[q] == Some(x);
    forall rq | ReadyOk(s', rq, None)
      ensures false
    {
      FrontRelinkCycles(s.nextReady, s.heads[q], l, i, rq[q]);
    }
  }

  /**
   * Linking a slot that is already on a list, other than its first, in
   * front of the head closes a cycle: no list starts at it any more.
   */
  lemma FrontRelinkCycles(next: seq<Option<nat>>, head: Option<nat>, l: seq<nat>, i: nat, ll: seq<nat>)
    requires IsList(next, head, l) && 0 < i < |l|
    ensures !IsList(next[l[i] := head], Some(l[i]), ll)
  {
    var x := l[i];
    var next' := next[x := head];
    NoDupPairs(l);
    if IsList(next', Some(x), ll) {
      NoDupPairs(ll);
      assert next'[ll[0]] == After(ll, 0);
      var j := 0;
      while j < i
        invariant 0 <= j <= i && j + 1 < |ll| && ll[j + 1] == l[j]
      {
        assert next'[l[j]] == next[l[j]] == After(l, j);
        assert next'[ll[j + 1]] == After(ll, j + 1);
        j := j + 1;
      }
      assert false;
    }
  }

  // ---------------------------------------------------------------------
  // The reply

  /** The segment T_GETINS/T_SETINS (text, or data when the text segment is empty) and the data requests use. */
  function TraceSeg(p: Proc, request: int): (seg: int)
    requires |p.memmap| == NR_LOCAL_SEGS
    ensures seg == T <==> (request == T_GETINS || request == T_SETINS) && p.memmap[T].memLen != 0
    ensures seg == T || seg == D
  {
    if (request == T_GETINS || request == T_SETINS) && p.memmap[T].memLen != 0 then T else D
  }

  /** The physical address of the word a memory request reads or writes, 0 when it is not mapped. */
  function TraceAddr(p: Proc, request: int, addr: u32): u32
    requires |p.memmap| == NR_LOCAL_SEGS
  {
    KMem.UmapLocal(p, TraceSeg(p, request), addr, TR_VLSIZE)
  }

  predicate MemRequest(request: int)
  {
    request == T_GETINS || request == T_GETDATA || request == T_SETINS || request == T_SETDATA
  }

  predicate ResumeRequest(request: int)
  {
    request == T_RESUME || request == T_STEP
  }

  /** The reply to a request on the entry p of an existing user process. */
  function RequestReply(p: Proc, request: int, addr: u32, procBytes: nat): int
    requires |p.memmap| == NR_LOCAL_SEGS
  {
    if request == T_STOP || ResumeRequest(request) then OK
    else if MemRequest(request) then (if TraceAddr(p, request, addr) == 0 then EIO else OK)
    else if request == T_GETUSER then (if GetUserRefused(addr, procBytes) then EIO else OK)
    else if request == T_SETUSER then (if SetUserRefused(addr) then EIO else OK)
    else EIO
  }

  /** What a successful request answers. */
  function RequestAnswer(p: Proc, request: int, addr: u32): Answer
    requires |p.memmap| == NR_LOCAL_SEGS && RegsOk(p.regs)
  {
    if MemRequest(request) then Addr(TraceAddr(p, request, addr))
    else if request == T_GETUSER then (if FrameOffset(addr) then Word(FrameWord(p.regs, addr)) else Unmodelled)
    else NoData
  }

  /**
   * A memory request succeeds only for a word that lies wholly inside the
   * segment umap_local chose, without wrapping past 4 GiB; a text request
   * on a process without a separate text segment goes to its data space.
   */
  lemma MemRequestInSegment(p: Proc, request: int, addr: u32, procBytes: nat)
    requires |p.memmap| == NR_LOCAL_SEGS && MemRequest(request)
    ensures RequestReply(p, request, addr, procBytes) == OK ==>
      && addr + 4 < TWO32
      && addr + 4 <= KMem.SegEnd(KMem.ChosenSeg(p, TraceSeg(p, request), addr, TR_VLSIZE)) * CLICK_SIZE
    ensures p.memmap[T].memLen == 0 ==> TraceAddr(p, request, addr) == TraceAddr(p, T_GETDATA, addr)
  {
    KMem.UmapLocalChecks(p, TraceSeg(p, request), addr, TR_VLSIZE);
  }

  /**
   * A register written by a successful T_SETUSER is read back by
   * T_GETUSER at the same offset (struct proc is at least a frame long).
   */
  lemma SetUserRequestThenGetUser(p: Proc, addr: u32, data: bv32, procBytes: nat)
    requires |p.memmap| == NR_LOCAL_SEGS && RegsOk(p.regs) && procBytes >= FRAME_BYTES
    requires RequestReply(p, T_SETUSER, addr, procBytes) == OK
    ensures var p' := p.(regs := SetUser(p.regs, addr, data));
      && RequestReply(p', T_GETUSER, addr, procBytes) == OK
      && RequestAnswer(p', T_GETUSER, addr) == Word(if addr == OFF_PSW then SetPsw(Psw(p.regs), data) else data)
  {
    SetUserThenGetUser(p.regs, addr, data);
  }

  // ---------------------------------------------------------------------
  // The kernel call

  /** T_STOP: a runnable process is dequeued first; the entry becomes Stopped and the process is on no ready queue. */
  method TraceStop(k: Kernel, x: nat)
    requires k.Valid() && NR_TASKS <= x < NR_SLOTS
    modifies k, k.proc, k.nextReady, k.rdyHead, k.rdyTail
    ensures k.Valid() && k.callerQ == old(k.callerQ) && k.procPtr == old(k.procPtr)
    ensures k.proc[..] == old(k.proc[..])[x := Stopped(old(k.proc[x]))]
    ensures var q := old(k.proc[x].priority);
      k.readyQ == if old(k.proc[x].rts) == {} then old(k.readyQ)[q := Drop(old(k.readyQ[q]), x)] else old(k.readyQ)
    ensures forall q :: 0 <= q < NR_SCHED_QUEUES ==> x !in k.readyQ[q]
  {
    assert SlotOk(k.proc[x], x);
    var p := Stopped(k.proc[x]);
    assert SlotOk(p, x);
    if k.proc[x].rts == {} {
      k.Dequeue(x);
      BlockedInv(k.Snap(), k.G(), x, p);
    } else {
      RetagInv(k.Snap(), k.G(), x, p);
    }
    k.SetProc(x, p);
    RunnableOnOneReadyQueue(k.Snap(), k.G(), x);
  }

  /**
   * T_RESUME and T_STEP: the entry becomes Resumed; a process that was
   * blocked and is now runnable is enqueued by sched's rule.  Afterwards
   * P_STOP is clear and the process is on a ready queue iff it is runnable.
   */
  method TraceResume(k: Kernel, x: nat, step: bool)
    requires k.Valid() && NR_TASKS <= x < NR_SLOTS
    modifies k, k.proc, k.nextReady, k.rdyHead, k.rdyTail
    ensures k.Valid() && k.callerQ == old(k.callerQ) && k.procPtr == old(k.procPtr)
    ensures var p := Resumed(old(k.proc[x]), step);
      if ResumeEnqueues(old(k.proc[x].rts)) then
        var pl := Sched(p, old(k.schedPrev), x);
        k.proc[..] == old(k.proc[..])[x := pl.p] && k.readyQ == Inserted(old(k.readyQ), pl.queue, x, pl.front)
      else
        k.proc[..] == old(k.proc[..])[x := p] && k.readyQ == old(k.readyQ)
    ensures PStop !in k.proc[x].rts && (k.proc[x].rts == {} <==> x in k.readyQ[k.proc[x].priority])
  {
    if k.proc[x].rts == {} {
      ResumeRunnable(k, x, step);
    } else {
      ResumeBlocked(k, x, step);
    }
    RunnableOnOneReadyQueue(k.Snap(), k.G(), x);
  }

  /** Resuming a runnable process only changes its trace bit (T_STEP); it stays where it is on its ready queue. */
  method ResumeRunnable(k: Kernel, x: nat, step: bool)
    requires k.Valid() && x < NR_SLOTS && k.proc[x].rts == {}
    modifies k.proc
    ensures k.Valid() && k.proc[..] == old(k.proc[..])[x := Resumed(old(k.proc[x]), step)]
  {
    assert SlotOk(k.proc[x], x);
    var p := Resumed(k.proc[x], step);
    assert SlotOk(p, x);
    k.SetFields(x, p);
  }

  /** Resuming a blocked process: P_STOP goes, and the process is enqueued if no other flag is left. */
  method ResumeBlocked(k: Kernel, x: nat, step: bool)
    requires k.Valid() && x < NR_SLOTS && k.proc[x].rts != {}
    modifies k, k.proc, k.nextReady, k.rdyHead, k.rdyTail
    ensures k.Valid() && k.callerQ == old(k.callerQ) && k.procPtr == old(k.procPtr)
    ensures var p := Resumed(old(k.proc[x]), step);
      if p.rts == {} then
        var pl := Sched(p, old(k.schedPrev), x);
        k.proc[..] == old(k.proc[..])[x := pl.p] && k.readyQ == Inserted(old(k.readyQ), pl.queue, x, pl.front)
      else
        k.proc[..] == old(k.proc[..])[x := p] && k.readyQ == old(k.readyQ)
  {
    assert SlotOk(k.proc[x], x);
    var p := Resumed(k.proc[x], step);
    assert SlotOk(p, x);
    RetagInv(k.Snap(), k.G(), x, p);
    k.SetProc(x, p);
    if p.rts == {} {
      k.Enqueue(x);
    }
  }

  /** T_SETUSER after its checks: the register word at addr is written. */
  method TraceSetUser(k: Kernel, x: nat, addr: u32, data: bv32)
    requires k.Valid() && x < NR_SLOTS && !SetUserRefused(addr)
    modifies k.proc
    ensures k.Valid()
    ensures k.proc[..] == old(k.proc[..])[x := old(k.proc[x]).(regs := SetUser(old(k.proc[x].regs), addr, data))]
  {
    assert SlotOk(k.proc[x], x);
    var p := k.proc[x].(regs := SetUser(k.proc[x].regs, addr, data));
    assert SlotOk(p, x);
    k.SetFields(x, p);
  }

  /** The effect of a successful request on the table and the ready queues. */
  ghost predicate TraceEffect(t0: seq<Proc>, t1: seq<Proc>, rq0: seq<seq<nat>>, rq1: seq<seq<nat>>,
                              prev: Option<nat>, x: nat, request: int, addr: u32, data: bv32)
    requires x < |t0| && RegsOk(t0[x].regs) && 0 <= t0[x].priority < |rq0|
  {
    var p := t0[x];
    if request == T_STOP then
      t1 == t0[x := Stopped(p)] && rq1 == (if p.rts == {} then rq0[p.priority := Drop(rq0[p.priority], x)] else rq0)
    else if ResumeRequest(request) then
      var p' := Resumed(p, request == T_STEP);
      var pl := Sched(p', prev, x);
      if ResumeEnqueues(p.rts) then
        0 <= pl.queue < |rq0| && t1 == t0[x := pl.p] && rq1 == Inserted(rq0, pl.queue, x, pl.front)
      else t1 == t0[x := p'] && rq1 == rq0
    else if request == T_SETUSER then
      !SetUserRefused(addr) && t1 == t0[x := p.(regs := SetUser(p.regs, addr, data))] && rq1 == rq0
    else t1 == t0 && rq1 == rq0
  }

  /**
   * do_trace: EINVAL for a bad process number, EPERM for a kernel task,
   * EIO for an empty slot; otherwise RequestReply.  A successful request
   * answers RequestAnswer and has TraceEffect; a failed one changes
   * nothing.  procBytes is sizeof(struct proc).
   */
  method DoTrace(k: Kernel, procNr: int32, request: int, addr: u32, data: bv32, procBytes: nat) returns (r: int, ans: Answer)
    requires k.Valid() && procBytes >= FRAME_BYTES
    modifies k, k.proc, k.nextReady, k.rdyHead, k.rdyTail
    ensures k.Valid() && k.callerQ == old(k.callerQ) && k.procPtr == old(k.procPtr)
    ensures !IsOkProcN(procNr) ==> r == EINVAL
    ensures IsOkProcN(procNr) && IsKernelN(procNr) ==> r == EPERM
    ensures IsOkProcN(procNr) && !IsKernelN(procNr) ==>
      var x := ProcSlot(procNr);
      var p := old(k.proc[x]);
      && |p.memmap| == NR_LOCAL_SEGS && RegsOk(p.regs) && 0 <= p.priority < NR_SCHED_QUEUES
      && r == (if IsEmpty(p) then EIO else RequestReply(p, request, addr, procBytes))
      && (r == OK ==> ans == RequestAnswer(p, request, addr)
                      && TraceEffect(old(k.proc[..]), k.proc[..], old(k.readyQ), k.readyQ, old(k.schedPrev), x, request, addr, data))
    ensures r != OK ==> k.proc[..] == old(k.proc[..]) && k.readyQ == old(k.readyQ)
  {
    if !IsOkProcN(procNr) {
      return EINVAL, NoData;
    }
    if IsKernelN(procNr) {
      return EPERM, NoData;
    }
    var x := ProcSlot(procNr);
    assert SlotOk(k.proc[x], x);
    var p := k.proc[x];
    if IsEmpty(p) {
      return EIO, NoData;
    }
    r := RequestReply(p, request, addr, procBytes);
    if r != OK {
      return r, NoData;
    }
    ans := RequestAnswer(p, request, addr);
    if request == T_STOP {
      TraceStop(k, x);
    } else if ResumeRequest(request) {
      TraceResume(k, x, request == T_STEP);
    } else if request == T_SETUSER {
      TraceSetUser(k, x, addr, data);
    }
  }
}
