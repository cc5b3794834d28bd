/**
 * The system task's signal helpers (kernel/system.c send_sig and
 * cause_sig) and the kernel calls built on them: sys_kill
 * (kernel/system/do_kill.c) and sys_getksig (kernel/system/do_getksig.c).
 * Each works on the kernel object of KProc and keeps its queue invariant.
 */
module KSignal {
  import opened KConst
  import opened KState
  import opened KIpc
  import opened KProc

  /**
   * Signal sig has reached process p (privilege record v): it is pending
   * in s_sig_pending, or a notification from SYSTEM that carried it is in
   * p's buffer.
   */
  predicate SigReached(p: Proc, v: Priv, sig: int)
  {
    || sig in v.sigPending
    || (p.messBuf.Notice? && p.messBuf.source == SYSTEM && p.messBuf.arg.Signals? && sig in p.messBuf.arg.sigs)
  }

  /** Every SIGNALED process is also SIG_PENDING: cause_sig sets the two together and do_getksig clears only the first. */
  ghost predicate SigPaired(t: seq<Proc>)
  {
    forall i :: 0 <= i < |t| && Signaled in t[i].rts ==> SigPending in t[i].rts
  }

  /**
   * send_sig: sig joins the pending signals of x's privilege record and
   * SYSTEM notifies x, so the signal has reached x; only x's entry and its
   * record change, and x keeps every flag but RECEIVING.
   */
  method SendSig(k: Kernel, x: nat, sig: int, uptime: int)
    requires k.Valid() && x < NR_SLOTS
    modifies k, k.proc, k.priv, k.nextReady, k.rdyHead, k.rdyTail
    ensures k.Valid() && k.procPtr == old(k.procPtr) && k.callerQ == old(k.callerQ)
    ensures var pv := old(k.proc[x].privId);
      && SigReached(k.proc[x], k.priv[pv], sig)
      && k.priv[..] == old(k.priv[..])[pv := k.priv[pv]]
      && k.priv[pv].notifyPending <= old(k.priv[pv].notifyPending) + {old(k.priv[k.proc[ProcSlot(SYSTEM)].privId].id)}
      && k.priv[pv].flags == old(k.priv[pv].flags)
    ensures Notified(old(k.proc[..]), k.proc[..], x)
    ensures SigSent(old(k.proc[..]), old(k.priv[..]), old(k.ReadyState()), k.proc[..], k.priv[..], k.ReadyState(), x, sig, uptime)
  {
    var pv := k.proc[x].privId;
    var v := k.priv[pv].(sigPending := k.priv[pv].sigPending + {sig});
    PrivUpdateInv(k.Snap(), k.G(), None, pv, v);
    k.priv[pv] := v;
    ghost var t0, v0, s0 := k.proc[..], old(k.priv[..]), k.ReadyState();
    assert k.priv[..] == v0[pv := v];
    k.MiniNotify(ProcSlot(SYSTEM), x, uptime);
    SigSentReaches(t0, v0, s0, k.proc[..], k.priv[..], k.ReadyState(), x, sig, uptime);
  }

  /**
   * After send_sig, sig has reached x; only x's entry and its record have
   * changed, the record keeping its flags and gaining no pending
   * notification but SYSTEM's.
   */
  lemma SigSentReaches(t0: seq<Proc>, v0: seq<Priv>, s0: Ready, t: seq<Proc>, v: seq<Priv>, s: Ready, x: nat, sig: int, uptime: int)
    requires SigSent(t0, v0, s0, t, v, s, x, sig, uptime) && ProcSlot(SYSTEM) < |t0| && t0[ProcSlot(SYSTEM)].privId < |v0|
    ensures var pv := t0[x].privId;
      && Notified(t0, t, x) && t[x].privId == pv
      && SigReached(t[x], v[pv], sig)
      && v == v0[pv := v[pv]]
      && v[pv].notifyPending <= v0[pv].notifyPending + {v0[t0[ProcSlot(SYSTEM)].privId].id}
      && v[pv].flags == v0[pv].flags
  {
    var pv := t0[x].privId;
    NotifiedBy(t0, v0[pv := v0[pv].(sigPending := v0[pv].sigPending + {sig})], s0, t, v, s, ProcSlot(SYSTEM), x, uptime);
  }

  /**
   * What send_sig of sig to x made of table t0, records v0 and scheduler
   * state s0: sig joined the pending signals of x's record, then SYSTEM's
   * notification of x followed (NotifyDone).
   */
  ghost predicate SigSent(t0: seq<Proc>, v0: seq<Priv>, s0: Ready, t: seq<Proc>, v: seq<Priv>, s: Ready, x: nat, sig: int, uptime: int)
  {
    && x < |t0| && t0[x].privId < |v0|
    && var pv := t0[x].privId;
      NotifyDone(t0, v0[pv := v0[pv].(sigPending := v0[pv].sigPending + {sig})], s0, t, v, s, ProcSlot(SYSTEM), x, uptime)
  }

  /**
   * What cause_sig's marking step made of table t0, records v0 and
   * scheduler state s0 for x: x became SIGNALED and SIG_PENDING and, if it
   * was runnable, left its ready queue (Unqueued); then SIGKSIG was sent to
   * the process manager (SigSent).
   */
  ghost predicate RaiseDone(t0: seq<Proc>, v0: seq<Priv>, s0: Ready, t: seq<Proc>, v: seq<Priv>, s: Ready, x: nat, uptime: int)
  {
    && x < |t0| && 0 <= t0[x].priority < |s0.queues|
    && var t1 := t0[x := t0[x].(rts := t0[x].rts + {Signaled, SigPending})];
      var s1 := if t0[x].rts == {} then Unqueued(t0, v0, s0, x) else s0;
      SigSent(t1, v0, s1, t, v, s, ProcSlot(PM_PROC_NR), SIGKSIG, uptime)
  }

  /**
   * What cause_sig of sig for x made of table t0, records v0 and
   * scheduler state s0: nothing when sig was pending already; sig added to
   * x's pending signals and nothing else when x was SIGNALED; otherwise
   * sig added and then RaiseDone.
   */
  ghost predicate SigCaused(t0: seq<Proc>, v0: seq<Priv>, s0: Ready, t: seq<Proc>, v: seq<Priv>, s: Ready, x: nat, sig: int, uptime: int)
  {
    && x < |t0|
    && var added := t0[x := t0[x].(pending := t0[x].pending + {sig})];
      if sig in t0[x].pending then t == t0 && v == v0 && s == s0
      else if Signaled in t0[x].rts then t == added && v == v0 && s == s0
      else RaiseDone(added, v0, s0, t, v, s, x, uptime)
  }

  /**
   * cause_sig: a signal that is already pending for x changes nothing.
   * Otherwise it joins x's pending signals; unless x is already SIGNALED,
   * x leaves the ready queues, becomes SIGNALED and SIG_PENDING, and SIGKSIG
   * reaches the process manager.
   */
  method CauseSig(k: Kernel, x: nat, sig: int, uptime: int)
    requires k.Valid() && x < NR_SLOTS && k.GuardOk(x)
    modifies k, k.proc, k.priv, k.nextReady, k.rdyHead, k.rdyTail
    ensures k.Valid() && k.procPtr == old(k.procPtr) && k.callerQ == old(k.callerQ)
    ensures k.proc[x].pending == old(k.proc[x].pending) + {sig}
    ensures SigPaired(old(k.proc[..])) ==> SigPaired(k.proc[..])
    ensures SigCaused(old(k.proc[..]), old(k.priv[..]), old(k.ReadyState()), k.proc[..], k.priv[..], k.ReadyState(), x, sig, uptime)
    ensures sig !in old(k.proc[x].pending) ==> Caused(old(k.proc[..]), k.proc[..], x, sig)
    ensures sig !in old(k.proc[x].pending) && Signaled !in old(k.proc[x].rts) ==>
      var pm := ProcSlot(PM_PROC_NR);
      SigReached(k.proc[pm], k.priv[k.proc[pm].privId], SIGKSIG)
  {
    if sig !in k.proc[x].pending {
      ghost var t0 := k.proc[..];
      assert SlotOk(t0[x], x);
      AddPending(k, x, sig);
      PairedUpdate(t0, x, k.proc[x]);
      if Signaled !in k.proc[x].rts {
        ghost var t1 := k.proc[..];
        Raise(k, x, uptime);
        CausedByRaise(t0, t1, k.proc[..], x, sig);
      } else {
        assert Caused(t0, k.proc[..], x, sig);
      }
    }
  }

  /**
   * The table after cause_sig adds a new signal to x: x's pending signals
   * gain sig; if x was SIGNALED nothing else changes, otherwise x gains
   * SIGNALED and SIG_PENDING and the process manager's entry (the only
   * other one that changes) may have been woken, so it may lose RECEIVING.
   */
  ghost predicate Caused(t0: seq<Proc>, t: seq<Proc>, x: nat, sig: int)
    requires |t0| == |t| == NR_SLOTS && x < NR_SLOTS
  {
    var pm := ProcSlot(PM_PROC_NR);
    var added := t0[x].(pending := t0[x].pending + {sig});
    if Signaled in t0[x].rts then t == t0[x := added]
    else
      && t == t0[x := t[x]][pm := t[pm]]
      && Signaled in t[x].rts && SigPending in t[x].rts
      && t[x].rts - {Receiving} == t0[x].rts + {Signaled, SigPending} - {Receiving}
      && t[x].pending == added.pending
      && (x != pm ==> t[x] == added.(rts := t0[x].rts + {Signaled, SigPending}))
  }

  /** AddPending then Raise give a Caused table. */
  lemma CausedByRaise(t0: seq<Proc>, t1: seq<Proc>, t2: seq<Proc>, x: nat, sig: int)
    requires |t0| == |t1| == |t2| == NR_SLOTS && x < NR_SLOTS && Signaled !in t0[x].rts
    requires t1 == t0[x := t0[x].(pending := t0[x].pending + {sig})]
    requires Raised(t1, t2, x)
    ensures Caused(t0, t2, x, sig)
  {
  }

  /** The table after Raise marks x: x gains SIGNALED and SIG_PENDING, and only x and the process manager change, the latter losing at most RECEIVING. */
  ghost predicate Raised(t0: seq<Proc>, t: seq<Proc>, x: nat)
    requires |t0| == |t| == NR_SLOTS && x < NR_SLOTS
  {
    var pm := ProcSlot(PM_PROC_NR);
    && t == t0[x := t[x]][pm := t[pm]]
    && Signaled in t[x].rts && SigPending in t[x].rts
    && t[x].rts - {Receiving} == t0[x].rts + {Signaled, SigPending} - {Receiving}
    && t[x].pending == t0[x].pending
    && (x != pm ==> t[x] == t0[x].(rts := t0[x].rts + {Signaled, SigPending}))
  }

  /** sig joins x's pending signals; nothing else changes. */
  method AddPending(k: Kernel, x: nat, sig: int)
    requires k.Valid() && x < NR_SLOTS
    modifies k.proc
    ensures k.Valid()
    ensures k.proc[..] == old(k.proc[..])[x := old(k.proc[x]).(pending := old(k.proc[x].pending) + {sig})]
  {
    assert SlotOk(k.proc[x], x);
    k.SetFields(x, k.proc[x].(pending := k.proc[x].pending + {sig}));
  }

  /** cause_sig for a process not yet SIGNALED: it is marked and SIGKSIG reaches the process manager. */
  method Raise(k: Kernel, x: nat, uptime: int)
    requires k.Valid() && x < NR_SLOTS && k.GuardOk(x) && Signaled !in k.proc[x].rts
    modifies k, k.proc, k.priv, k.nextReady, k.rdyHead, k.rdyTail
    ensures k.Valid() && k.procPtr == old(k.procPtr) && k.callerQ == old(k.callerQ)
    ensures SigPaired(old(k.proc[..])) ==> SigPaired(k.proc[..])
    ensures Raised(old(k.proc[..]), k.proc[..], x)
    ensures var pm := ProcSlot(PM_PROC_NR); SigReached(k.proc[pm], k.priv[k.proc[pm].privId], SIGKSIG)
    ensures RaiseDone(old(k.proc[..]), old(k.priv[..]), old(k.ReadyState()), k.proc[..], k.priv[..], k.ReadyState(), x, uptime)
  {
    ghost var t0, v0, s0 := k.proc[..], k.priv[..], k.ReadyState();
    assert SlotOk(t0[x], x);
    MarkSignaled(k, x);
    ghost var t1 := k.proc[..];
    if t0[x].rts == {} {
      DequeuedUnqueued(t0, v0, s0, x, k.ReadyState());
    }
    SendSig(k, ProcSlot(PM_PROC_NR), SIGKSIG, uptime);
    RaisedBySteps(t0, t1, k.proc[..], x);
  }

  /** MarkSignaled then a notification to the process manager give a Raised table, and keep it SigPaired. */
  lemma RaisedBySteps(t0: seq<Proc>, t1: seq<Proc>, t2: seq<Proc>, x: nat)
    requires |t0| == NR_SLOTS && x < NR_SLOTS
    requires t1 == t0[x := t0[x].(rts := t0[x].rts + {Signaled, SigPending})]
    requires Notified(t1, t2, ProcSlot(PM_PROC_NR))
    ensures Raised(t0, t2, x)
    ensures SigPaired(t0) ==> SigPaired(t2)
  {
    var pm := ProcSlot(PM_PROC_NR);
    RaisePaired(t0, t1, t2, x, pm);
    if x == pm {
      assert Signaled in t1[x].rts - {Receiving} && SigPending in t1[x].rts - {Receiving};
    }
  }

  /** cause_sig's blocking step: x leaves the ready queues if it was on one and becomes SIGNALED and SIG_PENDING. */
  method MarkSignaled(k: Kernel, x: nat)
    requires k.Valid() && x < NR_SLOTS && k.GuardOk(x)
    modifies k, k.proc, k.nextReady, k.rdyHead, k.rdyTail
    ensures k.Valid() && k.procPtr == old(k.procPtr) && k.callerQ == old(k.callerQ) && k.priv[..] == old(k.priv[..])
    ensures k.proc[..] == old(k.proc[..])[x := old(k.proc[x]).(rts := old(k.proc[x].rts) + {Signaled, SigPending})]
    ensures Dequeued(old(k.proc[..]), k.priv[..], old(k.ReadyState()), x, k.ReadyState())
  {
    ghost var t0 := k.proc[..];
    var p := k.proc[x].(rts := k.proc[x].rts + {Signaled, SigPending});
    if k.proc[x].rts == {} {
      k.Dequeue(x);
      assert k.proc[..] == t0;
      BlockedInv(k.Snap(), k.G(), x, p);
    } else {
      RetagInv(k.Snap(), k.G(), x, p);
    }
    ghost var s := k.Snap();
    k.SetProc(x, p);
    assert k.Snap() == s.(procs := t0[x := p]);
  }

  /** Raise's two steps keep the table SigPaired: x gains both flags, then the process manager loses at most RECEIVING. */
  lemma RaisePaired(t0: seq<Proc>, t1: seq<Proc>, t2: seq<Proc>, x: nat, pm: nat)
    requires x < |t0| && pm < |t1| == |t2|
    requires t1 == t0[x := t0[x].(rts := t0[x].rts + {Signaled, SigPending})]
    requires t2 == t1[pm := t2[pm]] && t2[pm].rts - {Receiving} == t1[pm].rts - {Receiving}
    ensures SigPaired(t0) ==> SigPaired(t2)
  {
    PairedUpdate(t0, x, t1[x]);
    if SigPaired(t1) && Signaled in t2[pm].rts {
      assert Signaled in t2[pm].rts - {Receiving};
      assert SigPending in t1[pm].rts - {Receiving};
    }
    PairedUpdate(t1, pm, t2[pm]);
  }

  /** An entry whose SIGNALED comes with SIG_PENDING keeps the table SigPaired. */
  lemma PairedUpdate(t: seq<Proc>, x: nat, p: Proc)
    requires SigPaired(t) ==> (Signaled in p.rts ==> SigPending in p.rts)
    requires x < |t|
    ensures SigPaired(t) ==> SigPaired(t[x := p])
  {
    if SigPaired(t) {
      var t' := t[x := p];
      forall i | 0 <= i < |t'| && Signaled in t'[i].rts ensures SigPending in t'[i].rts {
        if i != x { assert t'[i] == t[i]; }
      }
    }
  }

  /**
   * sys_kill from process src: EINVAL for a process number out of range or
   * a signal above NSIG, EPERM for a kernel task.  From the process manager
   * the signal is sent straight to a system process (EPERM for any other);
   * from anyone else it is caused, for the process manager to handle.
   */
  method DoKill(k: Kernel, src: int, procNr: int32, sig: int, uptime: int) returns (r: int)
    requires k.Valid()
    modifies k, k.proc, k.priv, k.nextReady, k.rdyHead, k.rdyTail
    ensures k.Valid() && k.procPtr == old(k.procPtr) && k.callerQ == old(k.callerQ)
    ensures r in {OK, EINVAL, EPERM}
    ensures r == EINVAL <==> !IsOkProcN(procNr) || sig > NSIG
    ensures r != OK ==> k.proc[..] == old(k.proc[..]) && k.priv[..] == old(k.priv[..])
    ensures IsOkProcN(procNr) && sig <= NSIG ==>
      var x := ProcSlot(procNr);
      && (IsKernelN(procNr) ==> r == EPERM)
      && (IsUserN(procNr) && src == PM_PROC_NR ==>
            && (r == OK <==> SysProc in old(k.priv[k.proc[x].privId].flags))
            && (r == OK ==> SigReached(k.proc[x], k.priv[k.proc[x].privId], sig)))
      && (IsUserN(procNr) && src != PM_PROC_NR ==> r == OK && k.proc[x].pending == old(k.proc[x].pending) + {sig})
    ensures r == OK && src == PM_PROC_NR ==>
      SigSent(old(k.proc[..]), old(k.priv[..]), old(k.ReadyState()), k.proc[..], k.priv[..], k.ReadyState(), ProcSlot(procNr), sig, uptime)
    ensures r == OK && src != PM_PROC_NR ==>
      SigCaused(old(k.proc[..]), old(k.priv[..]), old(k.ReadyState()), k.proc[..], k.priv[..], k.ReadyState(), ProcSlot(procNr), sig, uptime)
  {
    if !IsOkProcN(procNr) || sig > NSIG {
      return EINVAL;
    }
    if IsKernelN(procNr) {
      return EPERM;
    }
    var x := ProcSlot(procNr);
    if src == PM_PROC_NR {
      if SysProc !in k.priv[k.proc[x].privId].flags {
        return EPERM;
      }
      SendSig(k, x, sig, uptime);
    } else {
      CauseSig(k, x, sig, uptime);
    }
    r := OK;
  }

  /** The first SIGNALED user slot from `from` on, if there is one. */
  function FirstSignaled(t: seq<Proc>, from: nat): (r: Option<nat>)
    requires from <= |t|
    ensures r.Some? ==> from <= r.value < |t| && Signaled in t[r.value].rts
    decreases |t| - from
  {
    if from == |t| then None
    else if Signaled in t[from].rts then Some(from)
    else FirstSignaled(t, from + 1)
  }

  /** FirstSignaled finds the lowest SIGNALED slot, and finds nothing only when there is none. */
  lemma {:induction false} FirstSignaledLowest(t: seq<Proc>, from: nat)
    requires from <= |t|
    ensures FirstSignaled(t, from).None? <==> forall i :: from <= i < |t| ==> Signaled !in t[i].rts
    ensures FirstSignaled(t, from).Some? ==> forall i :: from <= i < FirstSignaled(t, from).value ==> Signaled !in t[i].rts
    decreases |t| - from
  {
    if from < |t| && Signaled !in t[from].rts {
      FirstSignaledLowest(t, from + 1);
    }
  }

  /**
   * sys_getksig: the first user process that is SIGNALED hands its pending
   * signals to the process manager; its pending set is emptied and it stays
   * blocked by SIG_PENDING only.  With none, the process number is NONE.
   */
  method DoGetksig(k: Kernel) returns (r: int, nr: int, sigs: set<int>)
    requires k.Valid() && SigPaired(k.proc[..])
    modifies k.proc
    ensures k.Valid() && SigPaired(k.proc[..]) && r == OK
    ensures var f := FirstSignaled(old(k.proc[..]), NR_TASKS);
      && (f.None? ==> nr == NONE && sigs == {} && k.proc[..] == old(k.proc[..]))
      && (f.Some? ==>
            var x := f.value;
            && nr == old(k.proc[x].nr) && sigs == old(k.proc[x].pending)
            && k.proc[..] == old(k.proc[..])[x := old(k.proc[x]).(pending := {}, rts := old(k.proc[x].rts) - {Signaled})])
  {
    var i := NR_TASKS;
    while i < NR_SLOTS
      invariant NR_TASKS <= i <= NR_SLOTS
      invariant FirstSignaled(k.proc[..], NR_TASKS) == FirstSignaled(k.proc[..], i)
    {
      if Signaled in k.proc[i].rts {
        var pending := k.proc[i].pending;
        var p := k.proc[i].(pending := {}, rts := k.proc[i].rts - {Signaled});
        assert SigPending in p.rts;
        RetagInv(k.Snap(), k.G(), i, p);
        ghost var t0 := k.proc[..];
        k.SetProc(i, p);
        forall j | 0 <= j < NR_SLOTS && Signaled in k.proc[j].rts ensures SigPending in k.proc[j].rts {
          assert Signaled in t0[j].rts;
        }
        return OK, p.nr, pending;
      }
      i := i + 1;
    }
    return OK, NONE, {};
  }
}
