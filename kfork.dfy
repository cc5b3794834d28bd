/**
 * sys_fork (kernel/system/do_fork.c): the child's slot receives a copy of
 * the parent's entry, blocked by NO_MAP until the process manager installs
 * its memory map, with fresh accounting and half of the parent's quantum.
 */
module KFork {
  import opened KConst
  import opened Seqs
  import opened Links
  import opened KState
  import opened KIpc
  import opened KProc

  /** C's integer division by two, which truncates toward zero. */
  function Half(n: int): (h: int)
    ensures n >= 0 ==> 2 * h <= n <= 2 * h + 1
    ensures n < 0 ==> 2 * h - 1 <= n <= 2 * h
  {
    if n >= 0 then n / 2 else -((-n) / 2)
  }

  /** Register word i of r becomes w; a malformed frame is left as it is. */
  function PutWord(r: Regs, i: nat, w: bv32): (r': Regs)
    ensures RegsOk(r) && i < |r.words| ==> RegsOk(r') && r'.words[i] == w
    ensures |r'.words| == |r.words| && forall j :: 0 <= j < |r.words| && j != i ==> r'.words[j] == r.words[j]
  {
    if i < |r.words| then r.(words := r.words[i := w]) else r
  }

  /**
   * The child's entry: the parent's copied over it, keeping the child's own
   * LDT selector and taking process number nr; NO_MAP is set, SIGNALED,
   * SIG_PENDING and P_STOP cleared, no signal pending, return register 0,
   * times zero, half the parent's quantum rounded up; the child of a
   * system process gets the user privilege structure and NO_PRIV.
   */
  function ForkedChild(parent: Proc, child: Proc, nr: int, sysParent: bool): Proc
  {
    var rts := (parent.rts + {NoMap}) - {Signaled, SigPending, PStop};
    parent.(
      ldtSel := child.ldtSel,
      nr := nr,
      rts := if sysParent then rts + {NoPriv} else rts,
      pending := {},
      regs := PutWord(parent.regs, W_RETREG, 0),
      userTime := 0,
      sysTime := 0,
      ticksLeft := Half(parent.ticksLeft + 1),
      privId := if sysParent then USER_PRIV_ID else parent.privId)
  }

  /**
   * The child cannot run: it holds NO_MAP (and NO_PRIV under a system
   * parent), it is not an empty slot, and it sends only if its parent was
   * sending.
   */
  lemma ForkedChildBlocked(parent: Proc, child: Proc, nr: int, sysParent: bool)
    ensures var c := ForkedChild(parent, child, nr, sysParent);
      && NoMap in c.rts && c.rts != {} && !IsEmpty(c)
      && (sysParent ==> NoPriv in c.rts && c.privId == USER_PRIV_ID)
      && (Sending in c.rts <==> Sending in parent.rts)
      && Signaled !in c.rts && SigPending !in c.rts && PStop !in c.rts
  {
    var c := ForkedChild(parent, child, nr, sysParent);
    assert NoMap in c.rts;
  }

  /**
   * The quantum is shared: for a quantum that is not used up, the child's
   * half and the parent's half add up to it, and the child has the extra
   * tick of an odd quantum.
   */
  lemma QuantumShared(ticks: int)
    requires ticks >= 0
    ensures Half(ticks + 1) + Half(ticks) == ticks
    ensures Half(ticks + 1) - Half(ticks) == ticks % 2
  {
  }

  /**
   * An entry that neither sends nor is runnable may be replaced by another
   * such entry whatever its p_sendto: no queue depends on it.
   */
  lemma IdleRetagInv(s: KSnap, g: Queues, y: nat, p: Proc)
    requires Inv(s, g, None) && y < NR_SLOTS && SlotOk(p, y)
    requires s.procs[y].rts != {} && Sending !in s.procs[y].rts && p.rts != {} && Sending !in p.rts
    ensures Inv(s.(procs := s.procs[y := p]), g, None)
  {
    var s' := s.(procs := s.procs[y := p]);
    var t, t' := s.procs, s'.procs;
    MembersRetag(t, g.ready, y, p);
    assert ReadyLists(s', g.ready) by {
      assert s'.nextReady == s.nextReady && s'.heads == s.heads && s'.tails == s.tails;
    }
    assert CallerLists(s', g.callers) by {
      assert s'.qLink == s.qLink && s'.callerHead == s.callerHead;
    }
    forall d, j | 0 <= d < NR_SLOTS && 0 <= j < |g.callers[d]|
      ensures SendsTo(t', g.callers[d][j], d)
    {
      assert SendsTo(t, g.callers[d][j], d);
    }
    forall x | 0 <= x < NR_SLOTS && Sending in t'[x].rts
      ensures SendSlotOk(t'[x]) && x in g.callers[SendSlot(t'[x])] && g.rank[SendSlot(t'[x])] < g.rank[x]
    {
      assert x != y && t'[x] == t[x];
    }
  }

  /** The reply of do_fork: EINVAL unless the parent's slot is in use and the child's is empty. */
  function ForkReply(parent: Proc, child: Proc): int
  {
    if IsEmpty(parent) || !IsEmpty(child) then EINVAL else OK
  }

  /**
   * do_fork: PR_PPROC_NR names the parent and PR_PROC_NR the child.  On
   * OK the child's slot holds ForkedChild of the parent and the parent
   * keeps half of its quantum, rounded down; no queue changes, so the
   * child's caller queue is its own slot's and holds none of the
   * processes queued to send to the parent.
   */
  method DoFork(k: Kernel, parentNr: int, childNr: int) returns (r: int)
    requires k.Valid() && -NR_TASKS <= parentNr < NR_PROCS && -NR_TASKS <= childNr < NR_PROCS
    requires Sending !in k.proc[ProcSlot(parentNr)].rts
    modifies k.proc
    ensures k.Valid()
    ensures var pp, pc := ProcSlot(parentNr), ProcSlot(childNr);
      var parent := old(k.proc[pp]);
      var sys := SysProc in old(k.priv[parent.privId].flags);
      && r == ForkReply(parent, old(k.proc[pc]))
      && (r == EINVAL ==> k.proc[..] == old(k.proc[..]))
      && (r == OK ==> k.proc[..] == old(k.proc[..])[pc := ForkedChild(parent, old(k.proc[pc]), childNr, sys)]
                                                  [pp := parent.(ticksLeft := Half(parent.ticksLeft))])
    ensures k.readyQ == old(k.readyQ) && k.callerQ == old(k.callerQ)
    ensures var pp, pc := ProcSlot(parentNr), ProcSlot(childNr);
      r == OK ==> pp != pc && forall x :: x in k.callerQ[pp] ==> x !in k.callerQ[pc]
  {
    var pp, pc := ProcSlot(parentNr), ProcSlot(childNr);
    r := ForkReply(k.proc[pp], k.proc[pc]);
    if r == EINVAL {
      return;
    }
    var parent := k.proc[pp];
    var sys := SysProc in k.priv[parent.privId].flags;
    var c := ForkedChild(parent, k.proc[pc], childNr, sys);
    ForkedChildBlocked(parent, k.proc[pc], childNr, sys);
    assert SlotOk(c, pc) by { assert SlotOk(parent, pp); }
    IdleRetagInv(k.Snap(), k.G(), pc, c);
    k.SetProc(pc, c);
    k.SetTimes(pp, parent.userTime, parent.sysTime, Half(parent.ticksLeft));
    forall x | x in k.callerQ[pp] ensures x !in k.callerQ[pc] {
      var i :| 0 <= i < |k.callerQ[pp]| && k.callerQ[pp][i] == x;
      assert SendsTo(k.proc[..], x, pp);
    }
  }

  /** The links of the parent's slot copied into the child's by the whole-structure assignment of the C code. */
  function ForkLinksAsWritten(s: KSnap, pp: nat, pc: nat): KSnap
    requires pp < |s.nextReady| == |s.qLink| == |s.callerHead| && pc < |s.nextReady|
  {
    s.(nextReady := s.nextReady[pc := s.nextReady[pp]],
       qLink := s.qLink[pc := s.qLink[pp]],
       callerHead := s.callerHead[pc := s.callerHead[pp]])
  }

  /**
   * The structure copy as written also copies p_caller_q: when processes
   * are queued to send to the parent, the child's caller queue starts with
   * them, though none of them sends to the child, so no description of the
   * caller queues fits the tables any more.
   */
  lemma ForkAliasBreaksCallers(s: KSnap, g: Queues, pp: nat, pc: nat, c: Proc)
    requires Inv(s, g, None) && pp < NR_SLOTS && pc < NR_SLOTS && pp != pc
    requires Sending !in s.procs[pc].rts && Sending !in c.rts && SlotOk(c, pc) && g.callers[pp] != []
    ensures var s' := ForkLinksAsWritten(s, pp, pc).(procs := s.procs[pc := c]);
      Shape(s') && forall cq :: !CallerOk(s', cq)
  {
    var s' := ForkLinksAsWritten(s, pp, pc).(procs := s.procs[pc := c]);
    var l := g.callers[pp];
    assert IsList(s.qLink, s.callerHead[pp], l);
    assert SendsTo(s.procs, l[0], pp);
    forall i | 0 <= i < |l| ensures l[i] != pc {
      assert SendsTo(s.procs, l[i], pp);
    }
    ListFrame(s.qLink, s.callerHead[pp], l, pc, s.qLink[pp]);
    forall cq | CallerOk(s', cq) ensures false {
      assert IsList(s'.qLink, s'.callerHead[pc], cq[pc]);
      ListUnique(s'.qLink, s'.callerHead[pc], l, cq[pc]);
    }
  }
}
