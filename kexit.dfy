/**
 * sys_exit (kernel/system/do_exit.c): clear_proc releases a process slot,
 * turning off its alarm, taking it off the ready queue or the caller queue
 * it waits on, releasing its IRQ hooks and marking the slot SLOT_FREE; do_exit
 * decides which slot the request names.
 */
module KExit {
  import opened KConst
  import opened Seqs
  import opened Links
  import opened KState
  import opened KQueues
  import opened KIpc
  import opened KProc
  import opened KClock
  import opened KIrq

  /** The walk of clear_proc's inner loop along d's caller queue l up to x, with the slot before it. */
  method FindSender(k: Kernel, d: nat, x: nat, ghost l: seq<nat>) returns (prev: Option<nat>, ghost j: nat)
    requires d < k.callerHead.Length && IsList(k.qLink[..], k.callerHead[d], l) && x in l
    ensures j < |l| && l[j] == x && prev == (if j == 0 then None else Some(l[j - 1]))
    ensures if prev.None? then k.callerHead[d] == Some(x) else prev.value < k.qLink.Length && k.qLink[prev.value] == Some(x)
  {
    prev := None;
    var cur := k.callerHead[d];
    j := 0;
    while cur != Some(x)
      invariant j < |l| && cur == Some(l[j])
      invariant prev == (if j == 0 then None else Some(l[j - 1]))
      invariant forall i :: 0 <= i < j ==> l[i] != x
      decreases |l| - j
    {
      prev := cur;
      cur := k.qLink[cur.value];
      j := j + 1;
    }
  }

  /** A runnable process leaves its ready queue (lock_dequeue) and its slot becomes SLOT_FREE. */
  method FreeRunnable(k: Kernel, x: nat)
    requires k.Valid() && x < NR_SLOTS && k.proc[x].rts == {} && k.GuardOk(x)
    modifies k, k.nextReady, k.rdyHead, k.rdyTail, k.proc
    ensures k.Valid() && k.procPtr == old(k.procPtr) && k.callerQ == old(k.callerQ)
    ensures k.proc[..] == old(k.proc[..])[x := old(k.proc[x]).(rts := {SlotFree})]
    ensures var q := old(k.proc[x].priority); k.readyQ == old(k.readyQ)[q := Drop(old(k.readyQ[q]), x)]
  {
    k.Dequeue(x);
    MarkFree(k, x);
  }

  /**
   * A process blocked sending leaves the caller queue of its destination
   * and its slot becomes SLOT_FREE; no other caller queue holds it
   * (SendingOnOneCallerQueue), so the walks of the other queues find
   * nothing.
   */
  method FreeSender(k: Kernel, x: nat)
    requires k.Valid() && x < NR_SLOTS && Sending in k.proc[x].rts
    modifies k, k.qLink, k.callerHead, k.proc
    ensures k.Valid() && k.procPtr == old(k.procPtr) && k.readyQ == old(k.readyQ)
    ensures k.proc[..] == old(k.proc[..])[x := old(k.proc[x]).(rts := {SlotFree})]
    ensures var d := SendSlot(old(k.proc[x]));
      && 0 <= d < NR_SLOTS && d != x
      && k.callerQ == old(k.callerQ)[d := Drop(old(k.callerQ[d]), x)]
  {
    ghost var t0 := k.proc[..];
    DetachSender(k, x);
    ghost var t1 := k.proc[..];
    MarkFree(k, x);
    UpdateTwice(t0, x, t1[x], k.proc[x]);
  }

  /**
   * The last step of clear_proc's queue work: the flags become SLOT_FREE.  x
   * is not sending, and when it has no flag left it is the slot the queues
   * have just let go of.
   */
  method MarkFree(k: Kernel, x: nat)
    requires x < NR_SLOTS == k.proc.Length && Sending !in k.proc[x].rts && k.ValidEx(if k.proc[x].rts == {} then Some(x) else None)
    modifies k.proc
    ensures k.Valid()
    ensures k.proc[..] == old(k.proc[..])[x := old(k.proc[x]).(rts := {SlotFree})]
  {
    var p := k.proc[x].(rts := {SlotFree});
    assert SlotOk(p, x) by { assert SlotOk(k.proc[x], x); }
    if k.proc[x].rts == {} {
      BlockedInv(k.Snap(), k.G(), x, p);
    } else {
      RetagInv(k.Snap(), k.G(), x, p);
    }
    k.SetProc(x, p);
  }

  /** The caller-queue walk of clear_proc: x is unlinked from its destination's queue and loses SENDING. */
  method DetachSender(k: Kernel, x: nat)
    requires k.Valid() && x < NR_SLOTS && Sending in k.proc[x].rts
    modifies k, k.qLink, k.callerHead, k.proc
    ensures k.ValidEx(if k.proc[x].rts == {} then Some(x) else None)
    ensures k.procPtr == old(k.procPtr) && k.readyQ == old(k.readyQ)
    ensures k.proc[..] == old(k.proc[..])[x := old(k.proc[x]).(rts := old(k.proc[x].rts) - {Sending})]
    ensures var d := SendSlot(old(k.proc[x]));
      && 0 <= d < NR_SLOTS && d != x
      && k.callerQ == old(k.callerQ)[d := Drop(old(k.callerQ[d]), x)]
  {
    ghost var s0, g0 := k.Snap(), k.G();
    SendingOnOneCallerQueue(s0, g0, x);
    var d := k.proc[x].sendTo + NR_TASKS;
    assert k.rank[d] < k.rank[x];
    assert IsList(s0.qLink, s0.callerHead[d], g0.callers[d]);
    var prev, j := FindSender(k, d, x, k.callerQ[d]);
    DropIsRemove(k.callerQ[d], j);
    k.Detach(d, x, prev, j);
  }

  /**
   * The scheduling part of clear_proc: off the ready queue if runnable, off
   * its destination's caller queue if sending, then SLOT_FREE.  The senders
   * queued on x's own caller queue stay there.
   */
  method Vacate(k: Kernel, x: nat)
    requires k.Valid() && x < NR_SLOTS && k.GuardOk(x)
    modifies k, k.nextReady, k.rdyHead, k.rdyTail, k.qLink, k.callerHead, k.proc
    ensures k.Valid() && k.procPtr == old(k.procPtr)
    ensures k.proc[..] == old(k.proc[..])[x := old(k.proc[x]).(rts := {SlotFree})]
    ensures var q := old(k.proc[x].priority);
      k.readyQ == if old(k.proc[x].rts) == {} then old(k.readyQ)[q := Drop(old(k.readyQ[q]), x)] else old(k.readyQ)
    ensures var d := SendSlot(old(k.proc[x]));
      k.callerQ == if Sending in old(k.proc[x].rts) then old(k.callerQ)[d := Drop(old(k.callerQ[d]), x)] else old(k.callerQ)
    ensures k.callerQ[x] == old(k.callerQ[x])
  {
    if k.proc[x].rts == {} {
      FreeRunnable(k, x);
    } else if Sending in k.proc[x].rts {
      FreeSender(k, x);
    } else {
      MarkFree(k, x);
    }
  }

  /** An exiting system process gives up its privilege structure: s_proc_nr becomes NONE. */
  method Disown(k: Kernel, id: nat)
    requires k.Valid() && id < NR_SYS_PROCS
    modifies k.priv
    ensures k.Valid()
    ensures k.priv[..] == old(k.priv[..])[id := old(k.priv[id]).(procNr := NONE)]
  {
    var v := k.priv[id].(procNr := NONE);
    PrivUpdateInv(k.Snap(), k.G(), None, id, v);
    k.priv[id] := v;
  }

  /** The table entries after clear_proc of slot x: SLOT_FREE, and a system process's privilege structure without owner. */
  ghost predicate SlotCleared(t0: seq<Proc>, v0: seq<Priv>, t: seq<Proc>, v: seq<Priv>, x: nat)
    requires x < |t0| && t0[x].privId < |v0|
  {
    var id := t0[x].privId;
    && t == t0[x := t0[x].(rts := {SlotFree})]
    && v == if SysProc in v0[id].flags then v0[id := v0[id].(procNr := NONE)] else v0
  }

  /** The queues after clear_proc of p in slot x: p is off its ready queue and off its destination's caller queue. */
  ghost predicate QueuesCleared(p: Proc, x: nat, rq0: seq<seq<nat>>, cq0: seq<seq<nat>>, rq: seq<seq<nat>>, cq: seq<seq<nat>>)
    requires 0 <= p.priority < |rq0| && x < |cq0| == |cq| && (Sending in p.rts ==> 0 <= SendSlot(p) < |cq0|)
  {
    var q := p.priority;
    && rq == (if p.rts == {} then rq0[q := Drop(rq0[q], x)] else rq0)
    && cq == (if Sending in p.rts then cq0[SendSlot(p) := Drop(cq0[SendSlot(p)], x)] else cq0)
    && cq[x] == cq0[x]
  }

  /** The hooks after clear_proc of process nr: nr's hooks are free and on no chain, the others unchanged. */
  ghost predicate HooksReleased(h0: seq<Hook>, h: seq<Hook>, lines: seq<seq<Entry>>, nr: int)
    requires |h0| == |h| == NR_IRQ_HOOKS && |lines| == NR_IRQ_VECTORS
  {
    && (forall i :: 0 <= i < NR_IRQ_HOOKS ==> h[i] == if h0[i].procNr == nr then h0[i].(procNr := NONE) else h0[i])
    && (forall i, v :: 0 <= i < NR_IRQ_HOOKS && h0[i].procNr == nr && 0 <= v < NR_IRQ_VECTORS ==> i !in Slots(lines[v]))
  }

  /** The kernel-table part of clear_proc: Vacate, then the privilege structure of a system process. */
  method FreeSlot(k: Kernel, x: nat)
    requires k.Valid() && x < NR_SLOTS && k.GuardOk(x)
    modifies k, k.nextReady, k.rdyHead, k.rdyTail, k.qLink, k.callerHead, k.proc, k.priv
    ensures k.Valid() && k.procPtr == old(k.procPtr)
    ensures SlotCleared(old(k.proc[..]), old(k.priv[..]), k.proc[..], k.priv[..], x)
    ensures QueuesCleared(old(k.proc[x]), x, old(k.readyQ), old(k.callerQ), k.readyQ, k.callerQ)
  {
    var id := k.proc[x].privId;
    ghost var p := k.proc[x];
    ghost var v0 := k.priv[..];
    Vacate(k, x);
    assert k.priv[..] == v0;
    if SysProc in k.priv[id].flags {
      Disown(k, id);
    }
  }

  /**
   * clear_proc: the alarm timer of x's privilege structure is reset, x
   * leaves the scheduling and message queues, its IRQ hooks are released,
   * the slot becomes SLOT_FREE (isemptyp), and a system process's
   * privilege structure loses its owner.  Processes blocked sending to x
   * stay on x's caller queue.
   */
  method ClearProc(k: Kernel, clk: Clock, it: IrqTable, x: nat)
    requires k.Valid() && clk.Valid() && it.Valid() && x < NR_SLOTS && k.GuardOk(x)
    modifies k, k.nextReady, k.rdyHead, k.rdyTail, k.qLink, k.callerHead, k.proc, k.priv, clk, it, it.hooks
    ensures k.Valid() && clk.Valid() && it.Valid() && k.procPtr == old(k.procPtr)
    ensures IsEmpty(k.proc[x])
    ensures SlotCleared(old(k.proc[..]), old(k.priv[..]), k.proc[..], k.priv[..], x)
    ensures QueuesCleared(old(k.proc[x]), x, old(k.readyQ), old(k.callerQ), k.readyQ, k.callerQ)
    ensures clk.timers == Without(old(clk.timers), old(k.proc[x].privId)) && ExpOf(clk.timers, old(k.proc[x].privId)).None?
    ensures it.hooks == old(it.hooks) && HooksReleased(old(it.hooks[..]), it.hooks[..], it.lines, old(k.proc[x].nr))
  {
    clk.ResetTimer(k.proc[x].privId);
    ReleaseSlot(k, it, x);
  }

  /** clear_proc after the timer: the kernel tables and the IRQ hooks. */
  method ReleaseSlot(k: Kernel, it: IrqTable, x: nat)
    requires k.Valid() && it.Valid() && x < NR_SLOTS && k.GuardOk(x)
    modifies k, k.nextReady, k.rdyHead, k.rdyTail, k.qLink, k.callerHead, k.proc, k.priv, it, it.hooks
    ensures k.Valid() && it.Valid() && k.procPtr == old(k.procPtr)
    ensures SlotCleared(old(k.proc[..]), old(k.priv[..]), k.proc[..], k.priv[..], x)
    ensures QueuesCleared(old(k.proc[x]), x, old(k.readyQ), old(k.callerQ), k.readyQ, k.callerQ)
    ensures it.hooks == old(it.hooks) && HooksReleased(old(it.hooks[..]), it.hooks[..], it.lines, old(k.proc[x].nr))
  {
    var nr := k.proc[x].nr;
    ghost var h0 := it.hooks[..];
    it.ReleaseHooks(nr);
    assert HooksReleased(h0, it.hooks[..], it.lines, nr);
    FreeSlot(k, x);
  }

  /** The slot do_exit clears, or None when it refuses the request. */
  function ExitTarget(src: int, procNr: int32): (t: Option<int>)
    ensures t.Some? ==> -NR_TASKS <= t.value < NR_PROCS || t.value == src
  {
    if src == PM_PROC_NR && procNr != SELF then
      if IsOkProcN(procNr) then Some(procNr as int) else None
    else Some(src)
  }

  /** The reply do_exit gives. */
  function ExitReply(src: int, procNr: int32): (r: int)
  {
    if src == PM_PROC_NR && procNr != SELF then
      if IsOkProcN(procNr) then OK else EINVAL
    else EDONTREPLY
  }

  /**
   * Only the PM clears another process's slot, and gets OK back; any other
   * caller, or the PM naming SELF, clears its own slot and gets no reply.
   */
  lemma ExitOnlyPmClearsOthers(src: int, procNr: int32)
    ensures ExitTarget(src, procNr).Some? && ExitTarget(src, procNr).value != src ==> src == PM_PROC_NR
    ensures ExitTarget(src, procNr).None? <==> ExitReply(src, procNr) == EINVAL
    ensures ExitReply(src, procNr) == EDONTREPLY <==> ExitTarget(src, procNr) == Some(src) && (src != PM_PROC_NR || procNr == SELF)
  {
  }

  /**
   * do_exit: m_source is src; a request from the PM names the slot in
   * PR_PROC_NR (EINVAL when it is not a process number, SELF for the PM
   * itself).
   */
  method DoExit(k: Kernel, clk: Clock, it: IrqTable, src: int, procNr: int32) returns (r: int)
    requires k.Valid() && clk.Valid() && it.Valid() && -NR_TASKS <= src < NR_PROCS
    requires ExitTarget(src, procNr).Some? ==> k.GuardOk(ProcSlot(ExitTarget(src, procNr).value))
    modifies k, k.nextReady, k.rdyHead, k.rdyTail, k.qLink, k.callerHead, k.proc, k.priv, clk, it, it.hooks
    ensures k.Valid() && clk.Valid() && it.Valid()
    ensures r == ExitReply(src, procNr)
    ensures ExitTarget(src, procNr).None? ==>
      && k.proc[..] == old(k.proc[..]) && k.priv[..] == old(k.priv[..])
      && k.readyQ == old(k.readyQ) && k.callerQ == old(k.callerQ)
      && clk.timers == old(clk.timers) && it.hooks[..] == old(it.hooks[..]) && it.lines == old(it.lines)
    ensures ExitTarget(src, procNr).Some? ==>
      var x := ProcSlot(ExitTarget(src, procNr).value);
      && k.proc[..] == old(k.proc[..])[x := old(k.proc[x]).(rts := {SlotFree})]
      && IsEmpty(k.proc[x])
      && SlotCleared(old(k.proc[..]), old(k.priv[..]), k.proc[..], k.priv[..], x)
      && QueuesCleared(old(k.proc[x]), x, old(k.readyQ), old(k.callerQ), k.readyQ, k.callerQ)
      && clk.timers == Without(old(clk.timers), old(k.proc[x].privId)) && ExpOf(clk.timers, old(k.proc[x].privId)).None?
      && it.hooks == old(it.hooks) && HooksReleased(old(it.hooks[..]), it.hooks[..], it.lines, old(k.proc[x].nr))
  {
    var t := src;
    if src == PM_PROC_NR && procNr != SELF {
      if !IsOkProcN(procNr) {
        return EINVAL;
      }
      t := procNr as int;
      r := OK;
    } else {
      r := EDONTREPLY;
    }
    ClearProc(k, clk, it, ProcSlot(t));
  }
}
