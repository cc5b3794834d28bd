/**
 * The process table and the scheduler of kernel/proc.c: the ready queues
 * rdy_head/rdy_tail threaded through p_nextready, the caller queues
 * p_caller_q threaded through p_q_link, and the pointers proc_ptr,
 * next_ptr and bill_ptr.  The ghost fields readyQ, callerQ and rank
 * describe the queues as sequences of slots (KState.Inv).
 */
module KProc {
  import opened KConst
  import opened Seqs
  import opened Links
  import opened KState
  import opened KQueues
  import opened KIpc

  class Kernel {
    /** proc[]: slot i holds process number i - NR_TASKS. */
    const proc: array<Proc>
    /** priv[]: the privilege records, indexed by s_id. */
    const priv: array<Priv>
    /** p_nextready, p_q_link and p_caller_q of each slot. */
    const nextReady: array<Option<nat>>
    const qLink: array<Option<nat>>
    const callerHead: array<Option<nat>>
    /** rdy_head[] and rdy_tail[]. */
    const rdyHead: array<Option<nat>>
    const rdyTail: array<Option<nat>>
    /** proc_ptr, next_ptr and bill_ptr, as slots. */
    var procPtr: nat
    var nextPtr: nat
    var billPtr: nat
    /** sched's static prev_ptr: the last process that used up a whole quantum. */
    var schedPrev: Option<nat>

    ghost var readyQ: seq<seq<nat>>
    ghost var callerQ: seq<seq<nat>>
    ghost var rank: seq<nat>

    /** The link arrays are five different arrays. */
    ghost predicate Distinct()
    {
      && nextReady != qLink && nextReady != callerHead && nextReady != rdyHead && nextReady != rdyTail
      && qLink != callerHead && qLink != rdyHead && qLink != rdyTail
      && callerHead != rdyHead && callerHead != rdyTail && rdyHead != rdyTail
    }

    ghost function Snap(): KSnap
      reads this`procPtr, this`nextPtr, this`billPtr, proc, priv, nextReady, qLink, callerHead, rdyHead, rdyTail
    {
      KSnap(proc[..], priv[..], nextReady[..], qLink[..], callerHead[..], rdyHead[..], rdyTail[..], procPtr, nextPtr, billPtr)
    }

    ghost function G(): Queues
      reads this`readyQ, this`callerQ, this`rank
    {
      Queues(readyQ, callerQ, rank)
    }

    /** The scheduler's state: the ready queues, sched's prev_ptr, proc_ptr, next_ptr and bill_ptr. */
    ghost function ReadyState(): Ready
      reads this`readyQ, this`schedPrev, this`procPtr, this`nextPtr, this`billPtr
    {
      Ready(readyQ, schedPrev, procPtr, nextPtr, billPtr)
    }

    /** The queue invariant, with `ex` the runnable process that is between queues. */
    ghost predicate ValidEx(ex: Option<nat>)
      reads this`procPtr, this`nextPtr, this`billPtr, this`readyQ, this`callerQ, this`rank
      reads proc, priv, nextReady, qLink, callerHead, rdyHead, rdyTail
    {
      Distinct() && Inv(Snap(), G(), ex)
    }

    ghost predicate Valid()
      reads this`procPtr, this`nextPtr, this`billPtr, this`readyQ, this`callerQ, this`rank
      reads proc, priv, nextReady, qLink, callerHead, rdyHead, rdyTail
    {
      ValidEx(None)
    }

    /** dequeue panics when a kernel task's stack guard word has been overwritten. */
    ghost predicate GuardOk(x: nat)
      reads proc, priv
      requires x < proc.Length && proc[x].privId < priv.Length
    {
      IsKernelN(proc[x].nr) ==> priv[proc[x].privId].stackGuard == Some(STACK_GUARD)
    }

    /**
     * pick_proc: next_ptr becomes the head of the highest-priority
     * non-empty ready queue, and bill_ptr too when that process is
     * billable; with every queue empty nothing changes.
     */
    method PickProc(ghost ex: Option<nat>)
      requires Distinct() && Core(Snap(), G(), ex)
      modifies this
      ensures Inv(Snap(), G(), ex)
      ensures procPtr == old(procPtr) && schedPrev == old(schedPrev)
      ensures readyQ == old(readyQ) && callerQ == old(callerQ) && rank == old(rank)
      ensures nextPtr == (if Lowest(readyQ, 0).Some? then Lowest(readyQ, 0).value else old(nextPtr))
      ensures billPtr == (if Lowest(readyQ, 0).Some? && Billed(proc[..], priv[..], nextPtr) then nextPtr else old(billPtr))
    {
      ghost var s0 := Snap();
      var q := 0;
      while q < NR_SCHED_QUEUES && rdyHead[q].None?
        invariant 0 <= q <= NR_SCHED_QUEUES
        invariant unchanged(this)
        invariant Lowest(readyQ, 0) == Lowest(readyQ, q)
      {
        assert IsList(s0.nextReady, s0.heads[q], readyQ[q]);
        LowestFrom(readyQ, q);
        q := q + 1;
      }
      if q < NR_SCHED_QUEUES {
        assert IsList(s0.nextReady, s0.heads[q], readyQ[q]);
        var rp := rdyHead[q].value;
        nextPtr := rp;
        if Billable in priv[proc[rp].privId].flags {
          billPtr := rp;
        }
        PointersMove(s0, G(), ex, procPtr, nextPtr, billPtr);
        assert Snap() == s0.(nextPtr := nextPtr, billPtr := billPtr);
      }
    }

    /**
     * enqueue: sched decides the queue and the end; the process is linked
     * in (an empty queue gets it as head and tail) and pick_proc runs.
     */
    method Enqueue(x: nat)
      requires Distinct() && Core(Snap(), G(), Some(x)) && x < NR_SLOTS && proc[x].rts == {}
      modifies this, proc, nextReady, rdyHead, rdyTail
      ensures Inv(Snap(), G(), None) && callerQ == old(callerQ) && rank == old(rank)
      ensures Enqueued(old(proc[..]), priv[..], old(ReadyState()), x, proc[..], ReadyState())
    {
      ghost var s0 := Snap();
      ghost var rs0 := ReadyState();
      var r := Sched(proc[x], schedPrev, x);
      LinkedOk(s0, G(), x, r.p, r.front);
      LinkReady(x, r.p, r.front);
      schedPrev := r.prev;
      readyQ := Inserted(readyQ, r.queue, x, r.front);
      LowestAfterInsert(old(readyQ), r.queue, x, r.front);
      PickProc(None);
      assert r.queue < |rs0.queues|;
    }

    /** The list steps of enqueue: x, now described by p, goes on the queue of p's priority. */
    method LinkReady(x: nat, p: Proc, front: bool)
      requires Distinct() && x < proc.Length == nextReady.Length && 0 <= p.priority < rdyHead.Length == rdyTail.Length
      requires Linked.requires(Snap(), x, p, p.priority, front)
      modifies proc, nextReady, rdyHead, rdyTail
      ensures Snap() == Linked(old(Snap()), x, p, p.priority, front)
    {
      var q := p.priority;
      proc[x] := p;
      if rdyHead[q].None? {
        rdyHead[q] := Some(x);
        rdyTail[q] := Some(x);
        nextReady[x] := None;
      } else if front {
        nextReady[x] := rdyHead[q];
        rdyHead[q] := Some(x);
      } else {
        var t := rdyTail[q].value;
        nextReady[t] := Some(x);
        rdyTail[q] := Some(x);
        nextReady[x] := None;
      }
    }

    /**
     * dequeue: a runnable process is unlinked from the queue of its
     * priority (the tail pointer moves back when it was the tail), and
     * pick_proc runs when it was proc_ptr or next_ptr; a process that is
     * on no queue leaves everything as it was.
     */
    method Dequeue(x: nat)
      requires Valid() && x < NR_SLOTS && GuardOk(x)
      modifies this, nextReady, rdyHead, rdyTail
      ensures callerQ == old(callerQ) && rank == old(rank)
      ensures old(proc[x].rts) == {} ==> ValidEx(Some(x))
      ensures old(proc[x].rts) != {} ==>
        && Valid() && nextReady[..] == old(nextReady[..]) && rdyHead[..] == old(rdyHead[..]) && rdyTail[..] == old(rdyTail[..])
      ensures Dequeued(proc[..], priv[..], old(ReadyState()), x, ReadyState())
    {
      var q := proc[x].priority;
      ghost var l := readyQ[q];
      assert IsList(Snap().nextReady, Snap().heads[q], l);
      var found, prev, k := FindReady(x, q, l);
      if !found {
        NotQueuedNotRunnable(Snap(), G(), x);
        return;
      }
      Unqueue(x, q, l, k, prev);
      if x == procPtr || x == nextPtr {
        PickProc(Some(x));
      }
    }

    /** dequeue's unlinking once x is found at position k of ready queue q; next_ptr still names a queue head unless it was x. */
    method Unqueue(x: nat, q: nat, ghost l: seq<nat>, ghost k: nat, prev: Option<nat>)
      requires Valid() && x < NR_SLOTS && q == proc[x].priority && l == readyQ[q]
      requires k < |l| && l[k] == x && prev == (if k == 0 then None else Some(l[k - 1]))
      modifies this`readyQ, nextReady, rdyHead, rdyTail
      ensures Core(Snap(), G(), Some(x)) && proc[x].rts == {}
      ensures x != nextPtr ==> Inv(Snap(), G(), Some(x))
      ensures readyQ == old(readyQ)[q := Drop(l, x)]
    {
      ghost var s0 := Snap();
      ghost var g0 := G();
      UnlinkedOk(s0, g0, q, k);
      DropIsRemove(l, k);
      UnlinkReady(x, l, q, k, prev);
      readyQ := readyQ[q := Remove(l, k)];
      assert G() == g0.(ready := g0.ready[q := Remove(l, k)]);
      if x != nextPtr {
        LowestKeeps(g0.ready, 0, q, k);
      }
    }

    /** dequeue's search: the position of x on queue q and the slot before it, if x is there. */
    method FindReady(x: nat, q: nat, ghost l: seq<nat>) returns (found: bool, prev: Option<nat>, ghost k: nat)
      requires q < rdyHead.Length && IsList(nextReady[..], rdyHead[q], l)
      ensures found <==> x in l
      ensures found ==> k < |l| && l[k] == x && prev == (if k == 0 then None else Some(l[k - 1]))
    {
      prev := None;
      var cur := rdyHead[q];
      k := 0;
      while cur.Some? && cur.value != x
        invariant k <= |l|
        invariant cur == (if k < |l| then Some(l[k]) else None)
        invariant prev == (if k == 0 then None else Some(l[k - 1]))
        invariant forall i :: 0 <= i < k ==> l[i] != x
        decreases |l| - k
      {
        prev := cur;
        cur := nextReady[cur.value];
        k := k + 1;
      }
      found := cur.Some?;
    }

    /** The list steps of dequeue: position k of queue q is unlinked, and the tail pointer moves back if it named it. */
    method UnlinkReady(x: nat, ghost l: seq<nat>, q: nat, ghost k: nat, prev: Option<nat>)
      requires Distinct() && q < rdyHead.Length == rdyTail.Length
      requires Unlinked.requires(Snap(), l, q, k)
      requires x == l[k] && prev == (if k == 0 then None else Some(l[k - 1]))
      modifies nextReady, rdyHead, rdyTail
      ensures Snap() == Unlinked(old(Snap()), l, q, k)
    {
      if prev.None? {
        rdyHead[q] := nextReady[x];
      } else {
        nextReady[prev.value] := nextReady[x];
      }
      if rdyTail[q] == Some(x) {
        rdyTail[q] := prev;
      }
    }
      // -------------------------------------------------------------------
    // Message passing

    /**
     * mini_send's deadlock loop: from d, follow p_sendto while the process
     * reached is SENDING; ELOCKED when a step lands on c.
     */
    method Deadlocked(c: nat, d: nat) returns (locked: bool)
      requires Valid() && c < NR_SLOTS && d < NR_SLOTS
      ensures locked == LockedAsWritten(proc[..], rank, d, c)
    {
      ghost var t := proc[..];
      var xp := d;
      while Sending in proc[xp].rts
        invariant 0 <= xp < NR_SLOTS
        invariant Reaches(t, rank, d, c) <==> Reaches(t, rank, xp, c)
        decreases rank[xp]
      {
        ReachesStep(t, rank, xp, c);
        xp := SendSlot(proc[xp]);
        if xp == c {
          return true;
        }
      }
      return false;
    }

    /**
     * The receiving side of a delivery: d, blocked in a receive, gets msg
     * in its buffer and loses RECEIVING; with no flag left it is enqueued.
     */
    method Wake(d: nat, msg: Message)
      requires Valid() && d < NR_SLOTS && Receiving in proc[d].rts && Sending !in proc[d].rts
      modifies this, proc, nextReady, rdyHead, rdyTail
      ensures Valid()
      ensures proc[d] == old(proc[d]).(messBuf := msg, rts := old(proc[d].rts) - {Receiving}, ticksLeft := proc[d].ticksLeft, priority := proc[d].priority)
      ensures proc[..] == old(proc[..])[d := proc[d]]
      ensures proc[d].rts != {} ==> readyQ == old(readyQ) && nextPtr == old(nextPtr)
      ensures callerQ == old(callerQ) && procPtr == old(procPtr)
      ensures Readied(old(proc[..])[d := old(proc[d]).(messBuf := msg, rts := old(proc[d].rts) - {Receiving})],
                      priv[..], old(ReadyState()), d, proc[..], ReadyState())
    {
      var p := proc[d].(messBuf := msg, rts := proc[d].rts - {Receiving});
      RetagInv(Snap(), G(), d, p);
      SetProc(d, p);
      if p.rts == {} {
        Enqueue(d);
      }
    }

    /** Slot y's entry becomes p; nothing else changes. */
    method SetProc(y: nat, p: Proc)
      requires y < proc.Length
      modifies proc
      ensures Snap() == old(Snap()).(procs := old(Snap()).procs[y := p])
    {
      proc[y] := p;
    }

    /** Privilege record i becomes v; nothing else changes. */
    method SetPriv(i: nat, v: Priv)
      requires Valid() && i < NR_SYS_PROCS && PrivOk(v, i)
      modifies priv
      ensures Valid() && priv[..] == old(priv[..])[i := v]
    {
      PrivUpdateInv(Snap(), G(), None, i, v);
      priv[i] := v;
    }

    /** Slot y's accounting fields (user time, system time, quantum left) become the given values. */
    method SetTimes(y: nat, user: int, sys: int, left: int)
      requires Valid() && y < NR_SLOTS
      modifies proc
      ensures Valid()
      ensures proc[..] == old(proc[..])[y := old(proc[y]).(userTime := user, sysTime := sys, ticksLeft := left)]
    {
      var p := proc[y];
      var np := p.(userTime := user, sysTime := sys, ticksLeft := left);
      assert SlotOk(np, y) by { assert SlotOk(p, y); }
      SetFields(y, np);
    }

    /** Slot y's entry becomes p, which differs from it only in fields no queue depends on. */
    method SetFields(y: nat, p: Proc)
      requires Valid() && y < NR_SLOTS && SlotOk(p, y)
      requires p.rts == proc[y].rts && p.priority == proc[y].priority && p.sendTo == proc[y].sendTo
      modifies proc
      ensures Valid()
      ensures proc[..] == old(proc[..])[y := p]
    {
      FieldsInv(Snap(), G(), y, p);
      SetProc(y, p);
    }

    /** mini_send's walk to the end of d's caller queue. */
    method LastCaller(d: nat, ghost l: seq<nat>) returns (last: Option<nat>)
      requires d < callerHead.Length && IsList(qLink[..], callerHead[d], l)
      ensures last == Last(l) && (last.Some? ==> last.value < qLink.Length)
    {
      last := None;
      var cur := callerHead[d];
      ghost var k := 0;
      while cur.Some?
        invariant k <= |l|
        invariant cur == (if k < |l| then Some(l[k]) else None)
        invariant last == (if k == 0 then None else Some(l[k - 1]))
        decreases |l| - k
      {
        last := cur;
        cur := qLink[cur.value];
        k := k + 1;
      }
    }

    /** The list steps of blocking a sender: c becomes the last entry of d's caller queue. */
    method AppendCaller(c: nat, d: nat, last: Option<nat>)
      requires Distinct() && c < qLink.Length && d < callerHead.Length && (last.Some? ==> last.value < qLink.Length)
      modifies qLink, callerHead
      ensures Snap() == CallerAppended(old(Snap()), d, c, last)
    {
      if last.None? {
        callerHead[d] := Some(c);
      } else {
        qLink[last.value] := Some(c);
      }
      qLink[c] := None;
    }

    /**
     * mini_send: c sends m to d.  ELOCKED when d is c or its send chain
     * leads back to c; delivered when d waits for a message from c;
     * otherwise c blocks at the end of d's caller queue, or gets
     * ENOTREADY when it asked not to block.
     */
    method MiniSend(c: nat, d: nat, m: Message, nonBlocking: bool) returns (r: int)
      requires Valid() && c < NR_SLOTS && d < NR_SLOTS && (!nonBlocking ==> proc[c].rts == {} && GuardOk(c))
      modifies this, proc, nextReady, qLink, callerHead, rdyHead, rdyTail
      ensures Valid() && procPtr == old(procPtr)
      ensures r == SendVerdict(old(proc[..]), old(rank), c, d, nonBlocking)
      ensures proc[c].nr == old(proc[c].nr) && proc[c].privId == old(proc[c].privId)
      ensures proc[c].rts == if r == OK && !old(WaitsFor(proc[d], proc[c].nr)) then {Sending} else old(proc[c].rts)
      ensures SendDone(old(proc[..]), priv[..], old(callerQ), old(ReadyState()), proc[..], callerQ, ReadyState(), c, d, m, r)
    {
      var locked := d == c;
      if !locked {
        locked := Deadlocked(c, d);
      }
      if locked {
        r := ELOCKED;
      } else if WaitsFor(proc[d], proc[c].nr) {
        Wake(d, Stamped(m, proc[c].nr));
        assert proc[c] == old(proc[c]);
        r := OK;
      } else if nonBlocking {
        r := ENOTREADY;
      } else {
        BlockSender(c, d, m);
        r := OK;
      }
    }

    /** mini_send's blocking path: c leaves the ready queues and joins the end of d's caller queue. */
    method BlockSender(c: nat, d: nat, m: Message)
      requires Valid() && c < NR_SLOTS && d < NR_SLOTS && proc[c].rts == {} && GuardOk(c)
      requires !Locked(proc[..], rank, d, c)
      modifies this, nextReady, qLink, callerHead, rdyHead, rdyTail, proc
      ensures Valid() && procPtr == old(procPtr)
      ensures proc[..] == old(proc[..])[c := old(proc[c]).(messBuf := m, rts := {Sending}, sendTo := d - NR_TASKS)]
      ensures callerQ == old(callerQ)[d := old(callerQ[d]) + [c]]
      ensures forall q :: 0 <= q < NR_SCHED_QUEUES ==> c !in readyQ[q]
      ensures Dequeued(old(proc[..]), priv[..], old(ReadyState()), c, ReadyState())
    {
      ghost var s0, t0, v0 := ReadyState(), proc[..], priv[..];
      Dequeue(c);
      ghost var s1 := ReadyState();
      assert proc[..] == t0 && priv[..] == v0;
      Park(c, d, proc[c].(messBuf := m, rts := {Sending}, sendTo := d - NR_TASKS));
      assert priv[..] == v0 && ReadyState() == s1;
    }

    /** c, already off the ready queues, becomes p: SENDING to d, at the end of d's caller queue. */
    method Park(c: nat, d: nat, p: Proc)
      requires ValidEx(Some(c)) && c < NR_SLOTS && d < NR_SLOTS && proc[c].rts == {}
      requires SlotOk(p, c) && p.rts == {Sending} && SendSlotOk(p) && SendSlot(p) == d && !Locked(proc[..], rank, d, c)
      modifies this, qLink, callerHead, proc
      ensures Valid() && procPtr == old(procPtr) && nextPtr == old(nextPtr) && billPtr == old(billPtr)
      ensures readyQ == old(readyQ) && schedPrev == old(schedPrev)
      ensures proc[..] == old(proc[..])[c := p]
      ensures callerQ == old(callerQ)[d := old(callerQ[d]) + [c]]
      ensures forall q :: 0 <= q < NR_SCHED_QUEUES ==> c !in readyQ[q]
    {
      ghost var s1 := Snap();
      ghost var g1 := G();
      BlockSendInv(s1, g1, c, p);
      assert IsList(s1.qLink, s1.callerHead[d], callerQ[d]);
      PlaceSender(c, d, p, callerQ[d]);
      callerQ := callerQ[d := callerQ[d] + [c]];
      rank := NewRank(s1.procs, g1.rank, c, d);
    }

    /** The table steps of blocking a sender: c's entry becomes p and c goes to the end of d's caller queue l. */
    method PlaceSender(c: nat, d: nat, p: Proc, ghost l: seq<nat>)
      requires Distinct() && c < proc.Length == qLink.Length && d < callerHead.Length
      requires IsList(qLink[..], callerHead[d], l)
      requires CallerAppended.requires(Snap().(procs := Snap().procs[c := p]), d, c, Last(l))
      modifies proc, qLink, callerHead
      ensures Snap() == CallerAppended(old(Snap()).(procs := old(Snap()).procs[c := p]), d, c, Last(l))
    {
      proc[c] := p;
      var last := LastCaller(d, l);
      AppendCaller(c, d, last);
    }
    /** The corrected notification scan: the lowest pending privilege id whose owner src accepts. */
    method PendingFrom(pend: set<nat>, src: int) returns (found: Option<nat>)
      requires priv.Length == NR_SYS_PROCS
      ensures found == FirstNotify(pend, src, Owners(priv[..]), 0)
    {
      ghost var owner := Owners(priv[..]);
      var id := 0;
      while id < NR_SYS_PROCS
        invariant 0 <= id <= NR_SYS_PROCS
        invariant FirstNotify(pend, src, owner, 0) == FirstNotify(pend, src, owner, id)
      {
        if id in pend && Accepts(src, priv[id].procNr) {
          return Some(id);
        }
        id := id + 1;
      }
      return None;
    }

    /** mini_receive's walk along c's caller queue l for the first sender src accepts, with the slot before it. */
    method FindCaller(c: nat, src: int, ghost l: seq<nat>) returns (found: bool, x: nat, prev: Option<nat>, ghost k: nat)
      requires c < callerHead.Length && IsList(qLink[..], callerHead[c], l) && forall i :: 0 <= i < |l| ==> l[i] < proc.Length
      ensures found <==> FirstCaller(proc[..], l, src, 0).Some?
      ensures found ==> k == FirstCaller(proc[..], l, src, 0).value && k < |l| && x == l[k]
      ensures found ==> prev == (if k == 0 then None else Some(l[k - 1]))
    {
      prev := None;
      var cur := callerHead[c];
      k := 0;
      while cur.Some? && !Accepts(src, proc[cur.value].nr)
        invariant k <= |l|
        invariant cur == (if k < |l| then Some(l[k]) else None)
        invariant prev == (if k == 0 then None else Some(l[k - 1]))
        invariant FirstCaller(proc[..], l, src, 0) == FirstCaller(proc[..], l, src, k)
        decreases |l| - k
      {
        prev := cur;
        cur := qLink[cur.value];
        k := k + 1;
      }
      found := cur.Some?;
      x := if found then cur.value else 0;
    }

    /** The list step of taking a sender: position k of c's caller queue l is unlinked. */
    method UnlinkCaller(c: nat, x: nat, prev: Option<nat>, ghost l: seq<nat>, ghost k: nat)
      requires Distinct() && c < callerHead.Length && x < qLink.Length
      requires CallerUnlinked.requires(Snap(), l, c, k) && x == l[k] && prev == (if k == 0 then None else Some(l[k - 1]))
      modifies qLink, callerHead
      ensures Snap() == CallerUnlinked(old(Snap()), l, c, k)
    {
      if prev.None? {
        callerHead[c] := qLink[x];
      } else {
        qLink[prev.value] := qLink[x];
      }
    }

    /**
     * mini_receive's delivery of a pending notification: bit id is cleared,
     * BuildMess assembles the message from the owner of id (clearing the
     * pending interrupts or signals it reports) and c's buffer receives it.
     */
    method TakeNotification(c: nat, id: nat, uptime: int)
      requires Valid() && c < NR_SLOTS && id < NR_SYS_PROCS
      modifies proc, priv
      ensures Valid()
      ensures var pid := old(proc[c].privId);
        var b := BuildMess(old(priv[id].procNr), old(priv[pid]).(notifyPending := old(priv[pid].notifyPending) - {id}), uptime);
        && priv[..] == old(priv[..])[pid := b.rec]
        && proc[..] == old(proc[..])[c := old(proc[c]).(messBuf := b.msg)]
    {
      ghost var s0 := Snap();
      var pid := proc[c].privId;
      var src := priv[id].procNr;
      var b := BuildMess(src, priv[pid].(notifyPending := priv[pid].notifyPending - {id}), uptime);
      PrivUpdateOk(s0, G(), None, pid, b.rec);
      var p := proc[c].(messBuf := Stamped(b.msg, src));
      FieldsOk(s0.(privs := s0.privs[pid := b.rec]), G(), None, c, p);
      priv[pid] := b.rec;
      proc[c] := p;
      assert Snap() == s0.(privs := s0.privs[pid := b.rec], procs := s0.procs[c := p]);
    }

    /**
     * mini_receive's delivery from the caller queue: the sender x at
     * position k gives c its message, loses SENDING, leaves the queue and
     * is enqueued when no flag is left.
     */
    method TakeCaller(c: nat, x: nat, prev: Option<nat>, ghost k: nat)
      requires Valid() && c < NR_SLOTS && proc[c].rts == {}
      requires k < |callerQ[c]| && x == callerQ[c][k] && prev == (if k == 0 then None else Some(callerQ[c][k - 1]))
      modifies this, proc, qLink, callerHead, nextReady, rdyHead, rdyTail
      ensures Valid() && procPtr == old(procPtr)
      ensures callerQ == old(callerQ)[c := Remove(old(callerQ[c]), k)]
      ensures Readied(old(proc[..])[c := old(proc[c]).(messBuf := Stamped(old(proc[x].messBuf), old(proc[x].nr)))]
                                   [x := old(proc[x]).(rts := old(proc[x].rts) - {Sending})],
                      priv[..], old(ReadyState()), x, proc[..], ReadyState())
    {
      ghost var s0 := Snap();
      assert IsList(s0.qLink, s0.callerHead[c], callerQ[c]);
      var p := proc[c].(messBuf := Stamped(proc[x].messBuf, proc[x].nr));
      FieldsOk(s0, G(), None, c, p);
      proc[c] := p;
      assert x != c && proc[x] == old(proc[x]);
      Release(c, x, prev, k);
    }

    /** x, at position k of c's caller queue, stops sending to c. */
    method Release(c: nat, x: nat, prev: Option<nat>, ghost k: nat)
      requires Valid() && c < NR_SLOTS
      requires k < |callerQ[c]| && x == callerQ[c][k] && prev == (if k == 0 then None else Some(callerQ[c][k - 1]))
      modifies this, proc, qLink, callerHead, nextReady, rdyHead, rdyTail
      ensures Valid() && procPtr == old(procPtr)
      ensures callerQ == old(callerQ)[c := Remove(old(callerQ[c]), k)]
      ensures Readied(old(proc[..])[x := old(proc[x]).(rts := old(proc[x].rts) - {Sending})], priv[..], old(ReadyState()), x, proc[..], ReadyState())
    {
      ghost var t0 := proc[..];
      Detach(c, x, prev, k);
      if proc[x].rts == {} {
        ghost var t1 := proc[..];
        Enqueue(x);
        UpdateTwice(t0, x, t1[x], proc[x]);
      }
    }

    /** The caller-queue half of Release: x is unlinked and loses SENDING; a runnable x is left for enqueue. */
    method Detach(c: nat, x: nat, prev: Option<nat>, ghost k: nat)
      requires Valid() && c < NR_SLOTS
      requires k < |callerQ[c]| && x == callerQ[c][k] && prev == (if k == 0 then None else Some(callerQ[c][k - 1]))
      modifies this, proc, qLink, callerHead
      ensures ValidEx(if proc[x].rts == {} then Some(x) else None)
      ensures proc[..] == old(proc[..])[x := old(proc[x]).(rts := old(proc[x].rts) - {Sending})]
      ensures callerQ == old(callerQ)[c := Remove(old(callerQ[c]), k)]
      ensures procPtr == old(procPtr) && nextPtr == old(nextPtr) && billPtr == old(billPtr)
      ensures readyQ == old(readyQ) && schedPrev == old(schedPrev) && rank == old(rank)
    {
      var px := proc[x].(rts := proc[x].rts - {Sending});
      ghost var g := G();
      callerQ := callerQ[c := Remove(callerQ[c], k)];
      UnlinkSender(c, x, prev, g, k, px);
    }

    /**
     * The table steps of taking a sender: position k of c's caller queue is
     * unlinked and its entry becomes p, x without SENDING.
     */
    method UnlinkSender(c: nat, x: nat, prev: Option<nat>, ghost g: Queues, ghost k: nat, p: Proc)
      requires Distinct() && Inv(Snap(), g, None) && c < NR_SLOTS && k < |g.callers[c]| && x == g.callers[c][k]
      requires prev == (if k == 0 then None else Some(g.callers[c][k - 1]))
      requires p == proc[x].(rts := proc[x].rts - {Sending}) && G() == g.(callers := g.callers[c := Remove(g.callers[c], k)])
      modifies qLink, callerHead, proc
      ensures ValidEx(if p.rts == {} then Some(x) else None)
      ensures proc[..] == old(proc[..])[x := p]
    {
      ReleaseInv(Snap(), g, c, k, p);
      UnlinkCaller(c, x, prev, g.callers[c], k);
      proc[x] := p;
    }

    /** mini_receive's blocking path: c waits for a message from src, leaving the ready queues if it was on one. */
    method BlockReceiver(c: nat, src: int)
      requires Valid() && c < NR_SLOTS && (proc[c].rts == {} || proc[c].rts == {Sending}) && GuardOk(c)
      modifies this, proc, nextReady, rdyHead, rdyTail
      ensures Valid() && procPtr == old(procPtr) && callerQ == old(callerQ)
      ensures proc[..] == old(proc[..])[c := old(proc[c]).(getFrom := src, rts := old(proc[c].rts) + {Receiving})]
      ensures Dequeued(old(proc[..]), priv[..], old(ReadyState()), c, ReadyState())
    {
      if proc[c].rts == {} {
        Dequeue(c);
      }
      var p := proc[c].(getFrom := src, rts := proc[c].rts + {Receiving});
      if old(proc[c].rts) == {} {
        BlockedInv(Snap(), G(), c, p);
      } else {
        RetagInv(Snap(), G(), c, p);
      }
      SetProc(c, p);
    }

    /**
     * mini_receive's search over c's caller queue l: a pending notification
     * src accepts (unless c is sending or inside a SENDREC), else the first
     * acceptable sender on l, with the slot before it.
     */
    method Choose(c: nat, src: int, ghost l: seq<nat>) returns (n: Option<nat>, found: bool, x: nat, prev: Option<nat>, ghost k: nat, ghost pick: Pick)
      requires proc.Length == NR_SLOTS && priv.Length == NR_SYS_PROCS && callerHead.Length == NR_SLOTS
      requires c < NR_SLOTS && proc[c].privId < NR_SYS_PROCS
      requires IsList(qLink[..], callerHead[c], l) && forall i :: 0 <= i < |l| ==> l[i] < NR_SLOTS
      ensures pick == old(ReceivePick(proc[c], priv[proc[c].privId], Owners(priv[..]), proc[..], l, src))
      ensures && (n.Some? <==> pick.Notification?) && (n.Some? ==> n.value == pick.id)
        && (found <==> pick.Caller?)
        && (found ==> k == pick.k && k < |l| && x == l[k])
        && (found ==> prev == (if k == 0 then None else Some(l[k - 1])))
    {
      var pid := proc[c].privId;
      n := None;
      if Sending !in proc[c].rts && SendrecBusy !in priv[pid].flags {
        n := PendingFrom(priv[pid].notifyPending, src);
      }
      found, x, prev, k := false, 0, None, 0;
      if n.None? && Sending !in proc[c].rts {
        found, x, prev, k := FindCaller(c, src, l);
      }
      pick := ReceivePick(proc[c], priv[pid], Owners(priv[..]), proc[..], l, src);
    }

    /**
     * mini_receive: c receives from src (ANY or a process number).  A
     * pending notification comes first, then the first acceptable sender
     * on c's caller queue; with neither c blocks, or gets ENOTREADY when
     * it asked not to block.  `pick` is what ReceivePick chooses.
     */
    method MiniReceive(c: nat, src: int, nonBlocking: bool, uptime: int) returns (r: int, ghost pick: Pick)
      requires Valid() && c < NR_SLOTS && (proc[c].rts == {} || proc[c].rts == {Sending}) && GuardOk(c)
      modifies this, proc, priv, nextReady, qLink, callerHead, rdyHead, rdyTail
      ensures Valid() && procPtr == old(procPtr)
      ensures pick == old(ReceivePick(proc[c], priv[proc[c].privId], Owners(priv[..]), proc[..], callerQ[c], src))
      ensures r == (if pick.Nothing? && nonBlocking then ENOTREADY else OK)
      ensures ReceiveDone(old(proc[..]), old(priv[..]), old(callerQ), old(ReadyState()), proc[..], priv[..], callerQ, ReadyState(),
                          c, src, nonBlocking, uptime, r)
    {
      CallerQueueOf(Snap(), G(), c);
      var n, found, x, prev;
      ghost var k;
      n, found, x, prev, k, pick := Choose(c, src, callerQ[c]);
      r := Deliver(c, src, nonBlocking, uptime, n, found, x, prev, k, pick);
    }

    /** mini_receive's delivery once the choice is made: notification, caller, blocking or ENOTREADY. */
    method Deliver(c: nat, src: int, nonBlocking: bool, uptime: int, n: Option<nat>, found: bool, x: nat, prev: Option<nat>, ghost k: nat, ghost pick: Pick) returns (r: int)
      requires Valid() && c < NR_SLOTS && (proc[c].rts == {} || proc[c].rts == {Sending}) && GuardOk(c)
      requires (n.Some? <==> pick.Notification?) && (n.Some? ==> n.value == pick.id && n.value < NR_SYS_PROCS)
      requires found <==> pick.Caller?
      requires found ==> k == pick.k && k < |callerQ[c]| && x == callerQ[c][k] && proc[c].rts == {}
      requires found ==> prev == (if k == 0 then None else Some(callerQ[c][k - 1]))
      modifies this, proc, priv, nextReady, qLink, callerHead, rdyHead, rdyTail
      ensures Valid() && procPtr == old(procPtr)
      ensures r == (if pick.Nothing? && nonBlocking then ENOTREADY else OK)
      ensures pick.Notification? ==>
        var pid := old(proc[c].privId);
        var b := BuildMess(old(priv[pick.id].procNr), old(priv[pid]).(notifyPending := old(priv[pid].notifyPending) - {pick.id}), uptime);
        && priv[..] == old(priv[..])[pid := b.rec]
        && proc[..] == old(proc[..])[c := old(proc[c]).(messBuf := b.msg)]
        && callerQ == old(callerQ)
      ensures pick.Caller? ==>
        callerQ == old(callerQ)[c := Remove(old(callerQ[c]), pick.k)] && priv[..] == old(priv[..])
      ensures pick.Nothing? && !nonBlocking ==>
        && proc[..] == old(proc[..])[c := old(proc[c]).(getFrom := src, rts := old(proc[c].rts) + {Receiving})]
        && callerQ == old(callerQ) && priv[..] == old(priv[..])
      ensures pick.Nothing? && nonBlocking ==>
        proc[..] == old(proc[..]) && callerQ == old(callerQ) && priv[..] == old(priv[..])
      ensures pick.Caller? ==>
        Readied(old(proc[..])[c := old(proc[c]).(messBuf := Stamped(old(proc[x].messBuf), old(proc[x].nr)))]
                             [x := old(proc[x]).(rts := old(proc[x].rts) - {Sending})],
                priv[..], old(ReadyState()), x, proc[..], ReadyState())
      ensures pick.Nothing? && !nonBlocking ==> Dequeued(old(proc[..]), priv[..], old(ReadyState()), c, ReadyState())
      ensures pick.Notification? || (pick.Nothing? && nonBlocking) ==> ReadyState() == old(ReadyState())
    {
      r := OK;
      if n.Some? {
        TakeNotification(c, n.value, uptime);
      } else if found {
        TakeCaller(c, x, prev, k);
      } else if !nonBlocking {
        BlockReceiver(c, src);
      } else {
        r := ENOTREADY;
      }
    }

    /**
     * mini_notify: c notifies d.  When d waits for a message from c and is
     * not inside a SENDREC, BuildMess assembles the notification into d's
     * buffer and d is woken; otherwise c's privilege id joins d's pending
     * notifications.
     */
    method MiniNotify(c: nat, d: nat, uptime: int)
      requires Valid() && c < NR_SLOTS && d < NR_SLOTS
      modifies this, proc, priv, nextReady, rdyHead, rdyTail
      ensures Valid() && procPtr == old(procPtr) && callerQ == old(callerQ)
      ensures NotifyDone(old(proc[..]), old(priv[..]), old(ReadyState()), proc[..], priv[..], ReadyState(), c, d, uptime)
    {
      var pd := proc[d].privId;
      var nr := proc[c].nr;
      if WaitsFor(proc[d], nr) && SendrecBusy !in priv[pd].flags {
        var b := BuildMess(nr, priv[pd], uptime);
        PrivUpdateInv(Snap(), G(), None, pd, b.rec);
        priv[pd] := b.rec;
        Wake(d, b.msg);
      } else {
        var v := priv[pd].(notifyPending := priv[pd].notifyPending + {priv[proc[c].privId].id});
        PrivUpdateInv(Snap(), G(), None, pd, v);
        priv[pd] := v;
      }
    }

    /** The result of sys_call's checks for caller c. */
    ghost function Screened(c: nat, callNr: bv32, srcDst: int32, mPtr: nat, shutdownStarted: bool): int
      reads proc, priv
      requires proc.Length == NR_SLOTS && priv.Length == NR_SYS_PROCS && mPtr < TWO32 && c < NR_SLOTS && SlotOk(proc[c], c)
    {
      Screen(callNr, srcDst, mPtr, proc[..], priv[..], c, shutdownStarted)
    }

    /**
     * sys_call: after the checks of Screen, SEND runs mini_send; SENDREC
     * marks the caller SENDREC_BUSY, runs mini_send and, when that gives
     * OK, mini_receive from the same process; RECEIVE clears SENDREC_BUSY
     * and runs mini_receive; NOTIFY runs mini_notify; ECHO copies the
     * message back to the caller stamped with its own number; any other
     * function gives EBADCALL.
     */
    method SysCall(c: nat, callNr: bv32, srcDst: int32, mPtr: nat, m: Message, uptime: int, shutdownStarted: bool) returns (r: int, ghost mid: Stage)
      requires Valid() && c < NR_SLOTS && proc[c].rts == {} && GuardOk(c) && mPtr < TWO32
      modifies this, proc, priv, nextReady, qLink, callerHead, rdyHead, rdyTail
      ensures Valid() && procPtr == old(procPtr)
      ensures var f := CallFunction(callNr);
        old(Screened(c, callNr, srcDst, mPtr, shutdownStarted)) != OK || f !in KnownCalls ==>
          && r == (if old(Screened(c, callNr, srcDst, mPtr, shutdownStarted)) != OK then old(Screened(c, callNr, srcDst, mPtr, shutdownStarted)) else EBADCALL)
          && proc[..] == old(proc[..]) && priv[..] == old(priv[..]) && callerQ == old(callerQ) && ReadyState() == old(ReadyState())
      ensures var f := CallFunction(callNr); var nb := CallFlags(callNr) & NON_BLOCKING != 0;
        old(Screened(c, callNr, srcDst, mPtr, shutdownStarted)) == OK && (f == SEND || f == SENDREC) ==>
          && -NR_TASKS <= srcDst as int < NR_PROCS
          && var v := SendVerdict(old(proc[..]), old(rank), c, ProcSlot(srcDst as int), nb);
          && (f == SEND || v != OK ==> r == v)
          && (f == SENDREC ==> SendrecBusy in priv[old(proc[c].privId)].flags)
      ensures var f := CallFunction(callNr); var nb := CallFlags(callNr) & NON_BLOCKING != 0;
        old(Screened(c, callNr, srcDst, mPtr, shutdownStarted)) == OK && f == RECEIVE ==>
          && SendrecBusy !in priv[old(proc[c].privId)].flags
          && (r == OK || (r == ENOTREADY && nb))
      ensures old(Screened(c, callNr, srcDst, mPtr, shutdownStarted)) == OK && CallFunction(callNr) == NOTIFY ==> r == OK
      ensures old(Screened(c, callNr, srcDst, mPtr, shutdownStarted)) == OK && CallFunction(callNr) == ECHO ==>
        && r == OK
        && proc[..] == old(proc[..])[c := old(proc[c]).(messBuf := Stamped(m, old(proc[c].nr)))]
        && priv[..] == old(priv[..]) && callerQ == old(callerQ) && ReadyState() == old(ReadyState())
      ensures var f := CallFunction(callNr); var nb := CallFlags(callNr) & NON_BLOCKING != 0;
        old(Screened(c, callNr, srcDst, mPtr, shutdownStarted)) == OK && (f == SEND || f == SENDREC) ==>
          && -NR_TASKS <= srcDst as int < NR_PROCS
          && SendCallDone(old(proc[..]), old(priv[..]), old(callerQ), old(ReadyState()), mid, proc[..], priv[..], callerQ, ReadyState(),
                          c, ProcSlot(srcDst as int), srcDst as int, m, nb, f == SENDREC, uptime,
                          SendVerdict(old(proc[..]), old(rank), c, ProcSlot(srcDst as int), nb), r)
      ensures var f := CallFunction(callNr); var nb := CallFlags(callNr) & NON_BLOCKING != 0;
        old(Screened(c, callNr, srcDst, mPtr, shutdownStarted)) == OK && f == RECEIVE ==>
          ReceiveCallDone(old(proc[..]), old(priv[..]), old(callerQ), old(ReadyState()), proc[..], priv[..], callerQ, ReadyState(), c, srcDst as int, nb, uptime, r)
      ensures old(Screened(c, callNr, srcDst, mPtr, shutdownStarted)) == OK && CallFunction(callNr) == NOTIFY ==>
        && -NR_TASKS <= srcDst as int < NR_PROCS
        && NotifyDone(old(proc[..]), old(priv[..]), old(ReadyState()), proc[..], priv[..], ReadyState(), c, ProcSlot(srcDst as int), uptime)
        && callerQ == old(callerQ)
    {
      mid := Stage(proc[..], priv[..], callerQ, ReadyState());
      r := Screen(callNr, srcDst, mPtr, proc[..], priv[..], c, shutdownStarted);
      if r != OK {
        return;
      }
      var f := CallFunction(callNr);
      var nb := CallFlags(callNr) & NON_BLOCKING != 0;
      CheckDstSelects();
      if f == SEND || f == SENDREC {
        r, mid := SendPart(c, ProcSlot(srcDst as int), srcDst as int, m, nb, f == SENDREC, uptime);
      } else if f == RECEIVE {
        r := ReceivePart(c, srcDst as int, nb, uptime);
      } else if f == NOTIFY {
        MiniNotify(c, ProcSlot(srcDst as int), uptime);
        r := OK;
      } else if f == ECHO {
        Echo(c, m);
        r := OK;
      } else {
        r := EBADCALL;
      }
    }

    /** The RECEIVE case of sys_call: SENDREC_BUSY is cleared and mini_receive runs. */
    method ReceivePart(c: nat, src: int, nb: bool, uptime: int) returns (r: int)
      requires Valid() && c < NR_SLOTS && proc[c].rts == {} && GuardOk(c)
      modifies this, proc, priv, nextReady, qLink, callerHead, rdyHead, rdyTail
      ensures Valid() && procPtr == old(procPtr)
      ensures SendrecBusy !in priv[old(proc[c].privId)].flags
      ensures r == OK || (r == ENOTREADY && nb)
      ensures ReceiveCallDone(old(proc[..]), old(priv[..]), old(callerQ), old(ReadyState()), proc[..], priv[..], callerQ, ReadyState(), c, src, nb, uptime, r)
    {
      var pid := proc[c].privId;
      SetPriv(pid, priv[pid].(flags := priv[pid].flags - {SendrecBusy}));
      ghost var t1, v1, cq1, s1 := proc[..], priv[..], callerQ, ReadyState();
      ghost var pick;
      r, pick := MiniReceive(c, src, nb, uptime);
      ReceiveKeepsFlags(t1, v1, cq1, s1, proc[..], priv[..], callerQ, ReadyState(), c, src, nb, uptime, r);
    }

    /** The ECHO case of sys_call: the message comes back to c stamped with c's own number. */
    method Echo(c: nat, m: Message)
      requires Valid() && c < NR_SLOTS
      modifies proc
      ensures Valid()
      ensures proc[..] == old(proc[..])[c := old(proc[c]).(messBuf := Stamped(m, old(proc[c].nr)))]
    {
      var p := proc[c].(messBuf := Stamped(m, proc[c].nr));
      FieldsInv(Snap(), G(), c, p);
      SetProc(c, p);
    }

    /**
     * The SEND and SENDREC cases of sys_call: SENDREC sets SENDREC_BUSY;
     * mini_send to d follows and, for SENDREC with OK, mini_receive from
     * src.
     */
    method SendPart(c: nat, d: nat, src: int, m: Message, nb: bool, sendrec: bool, uptime: int) returns (r: int, ghost mid: Stage)
      requires Valid() && c < NR_SLOTS && d < NR_SLOTS && proc[c].rts == {} && GuardOk(c)
      modifies this, proc, priv, nextReady, qLink, callerHead, rdyHead, rdyTail
      ensures Valid() && procPtr == old(procPtr)
      ensures var v := SendVerdict(old(proc[..]), old(rank), c, d, nb);
        (!sendrec || v != OK ==> r == v) && (sendrec ==> SendrecBusy in priv[old(proc[c].privId)].flags)
      ensures SendCallDone(old(proc[..]), old(priv[..]), old(callerQ), old(ReadyState()), mid, proc[..], priv[..], callerQ, ReadyState(),
                           c, d, src, m, nb, sendrec, uptime, SendVerdict(old(proc[..]), old(rank), c, d, nb), r)
    {
      var pid := proc[c].privId;
      ghost var v0 := priv[..];
      if sendrec {
        var v := priv[pid].(flags := priv[pid].flags + {SendrecBusy});
        PrivUpdateInv(Snap(), G(), None, pid, v);
        priv[pid] := v;
        assert priv[..] == v0[pid := v];
      }
      assert proc[..] == old(proc[..]);
      r := MiniSend(c, d, m, nb);
      mid := Stage(proc[..], priv[..], callerQ, ReadyState());
      if sendrec && r == OK {
        ghost var pick;
        r, pick := MiniReceive(c, src, nb, uptime);
      }
    }
  }
}
