/**
 * The scheduling policy of kernel/proc.c (sched) and the effect of the
 * queue operations enqueue and dequeue on the kernel's tables, as
 * functions on KSnap values with the lemmas that they keep the queue
 * invariant.  The Kernel class (kproc.dfy) performs the same steps on its
 * arrays and uses these lemmas.
 */
module KQueues {
  import opened KConst
  import opened Seqs
  import opened Links
  import opened KState

  // ---------------------------------------------------------------------
  // sched

  /** Where sched puts a process: the updated entry, its queue, front or back, and the new prev_ptr. */
  datatype Placement = Placement(p: Proc, queue: int, front: bool, prev: Option<nat>)

  /** A priority after a penalty, kept within [maxPriority, IDLE_Q - 1]. */
  function Clamp(priority: int, maxPriority: int): (r: int)
    ensures maxPriority <= IDLE_Q - 1 ==> maxPriority <= r <= IDLE_Q - 1
    ensures maxPriority <= priority <= IDLE_Q - 1 ==> r == priority
  {
    if priority < maxPriority then maxPriority
    else if priority > IDLE_Q - 1 then IDLE_Q - 1
    else priority
  }

  /**
   * sched(rp): a process with ticks left goes to the front of the queue of
   * its priority.  One without gets a new quantum and is remembered in
   * prev_ptr; if it was already the remembered one its priority drops by
   * one, otherwise it rises by one, within [p_max_priority, IDLE_Q - 1];
   * kernel tasks keep their priority.  It goes to the back of its queue.
   */
  function Sched(p: Proc, prev: Option<nat>, x: nat): (r: Placement)
    ensures r.front <==> p.ticksLeft > 0
    ensures r.queue == r.p.priority
    ensures r.p == p.(ticksLeft := r.p.ticksLeft, priority := r.p.priority)
    ensures p.ticksLeft > 0 ==> r.p == p && r.prev == prev
    ensures p.ticksLeft <= 0 ==> r.p.ticksLeft == p.quantumSize && r.prev == Some(x)
    ensures IsKernelN(p.nr) ==> r.p.priority == p.priority
    ensures !IsKernelN(p.nr) && p.ticksLeft <= 0 ==>
      r.p.priority == Clamp(p.priority + (if prev == Some(x) then 1 else -1), p.maxPriority)
    ensures 0 <= p.priority < NR_SCHED_QUEUES && 0 <= p.maxPriority < NR_SCHED_QUEUES ==> 0 <= r.queue < NR_SCHED_QUEUES
  {
    var timeLeft := p.ticksLeft > 0;
    var p1 := if timeLeft then p else p.(ticksLeft := p.quantumSize);
    var penalty := if timeLeft then 0 else if prev == Some(x) then 1 else -1;
    var prev1 := if timeLeft then prev else Some(x);
    var p2 := if penalty != 0 && !IsKernelN(p.nr) then p1.(priority := Clamp(p1.priority + penalty, p1.maxPriority)) else p1;
    Placement(p2, p2.priority, timeLeft, prev1)
  }

  /**
   * A process that keeps using whole quanta in a row sinks one queue per
   * quantum until it reaches IDLE_Q - 1, and never rises above its maximum
   * priority.
   */
  lemma SchedPenalisesRepeats(p: Proc, x: nat)
    requires !IsKernelN(p.nr) && p.ticksLeft <= 0 && 0 <= p.maxPriority <= p.priority < IDLE_Q - 1
    ensures Sched(p, Some(x), x).p.priority == p.priority + 1
    ensures Sched(p, None, x).p.priority == (if p.priority > p.maxPriority then p.priority - 1 else p.priority)
  {
  }

  // ---------------------------------------------------------------------
  // enqueue

  /** The ready queues with x put on queue q, at the front or at the back. */
  function Inserted(rq: seq<seq<nat>>, q: nat, x: nat, front: bool): seq<seq<nat>>
    requires q < |rq|
  {
    rq[q := if front then [x] + rq[q] else rq[q] + [x]]
  }

  /** The tables after enqueue has linked x into queue q (an empty queue gets head == tail == x). */
  function Linked(s: KSnap, x: nat, p: Proc, q: nat, front: bool): KSnap
    requires x < |s.procs| && x < |s.nextReady| && q < |s.heads| && q < |s.tails|
    requires s.heads[q].None? || front || (s.tails[q].Some? && s.tails[q].value < |s.nextReady|)
  {
    var t := s.procs[x := p];
    if s.heads[q].None? then
      s.(procs := t, nextReady := s.nextReady[x := None], heads := s.heads[q := Some(x)], tails := s.tails[q := Some(x)])
    else if front then
      s.(procs := t, nextReady := s.nextReady[x := s.heads[q]], heads := s.heads[q := Some(x)])
    else
      s.(procs := t, nextReady := s.nextReady[s.tails[q].value := Some(x)][x := None], tails := s.tails[q := Some(x)])
  }

  /** The tables after dequeue has unlinked the process at position k of queue q (list l). */
  function Unlinked(s: KSnap, l: seq<nat>, q: nat, k: nat): KSnap
    requires k < |l| && q < |s.heads| && q < |s.tails| && l[k] < |s.nextReady|
    requires k > 0 ==> l[k - 1] < |s.nextReady|
  {
    var x := l[k];
    var prev := if k == 0 then None else Some(l[k - 1]);
    var s1 := if k == 0 then s.(heads := s.heads[q := s.nextReady[x]])
              else s.(nextReady := s.nextReady[l[k - 1] := s.nextReady[x]]);
    if s.tails[q] == Some(x) then s1.(tails := s.tails[q := prev]) else s1
  }

  /** Changing the ready links, or fields of entries that do not concern sending, keeps the caller queues and the rank. */
  lemma SendFrame(s: KSnap, s': KSnap, g: Queues)
    requires Shape(s) && Shape(s') && CallerOk(s, g.callers) && RankOk(s, g.rank)
    requires s'.qLink == s.qLink && s'.callerHead == s.callerHead
    requires forall i :: 0 <= i < NR_SLOTS ==>
      (Sending in s'.procs[i].rts <==> Sending in s.procs[i].rts) && s'.procs[i].sendTo == s.procs[i].sendTo
    ensures CallerOk(s', g.callers) && RankOk(s', g.rank)
  {
    forall d, k | 0 <= d < NR_SLOTS && 0 <= k < |g.callers[d]|
      ensures SendsTo(s'.procs, g.callers[d][k], d)
    {
      assert SendsTo(s.procs, g.callers[d][k], d);
    }
  }

  /** The exempt slot is on no ready queue. */
  lemma ExemptNotQueued(t: seq<Proc>, rq: seq<seq<nat>>, x: nat, q: int)
    requires |t| == NR_SLOTS && |rq| == NR_SCHED_QUEUES && forall i :: 0 <= i < NR_SLOTS ==> 0 <= t[i].priority < NR_SCHED_QUEUES
    requires ReadyMembers(t, rq, Some(x)) && 0 <= q < NR_SCHED_QUEUES
    ensures x !in rq[q]
  {
    forall k | 0 <= k < |rq[q]|
      ensures rq[q][k] != x
    {
      assert InReady(t, rq[q][k], q, Some(x));
    }
  }

  /** A slot on ready queue q is on no other ready queue. */
  lemma QueuedOnce(t: seq<Proc>, rq: seq<seq<nat>>, ex: Option<nat>, y: nat, q: int, q': int)
    requires |t| == NR_SLOTS && |rq| == NR_SCHED_QUEUES && forall i :: 0 <= i < NR_SLOTS ==> 0 <= t[i].priority < NR_SCHED_QUEUES
    requires ReadyMembers(t, rq, ex) && 0 <= q < NR_SCHED_QUEUES && 0 <= q' < NR_SCHED_QUEUES && q != q'
    requires y in rq[q]
    ensures y !in rq[q']
  {
    var i :| 0 <= i < |rq[q]| && rq[q][i] == y;
    assert InReady(t, rq[q][i], q, ex);
    forall k | 0 <= k < |rq[q']|
      ensures rq[q'][k] != y
    {
      assert InReady(t, rq[q'][k], q', ex);
    }
  }

  /** Membership after enqueue: x, runnable with priority q, joins queue q. */
  lemma MembersInsert(t: seq<Proc>, rq: seq<seq<nat>>, x: nat, p: Proc, front: bool)
    requires |t| == NR_SLOTS && |rq| == NR_SCHED_QUEUES && forall i :: 0 <= i < NR_SLOTS ==> 0 <= t[i].priority < NR_SCHED_QUEUES
    requires ReadyMembers(t, rq, Some(x)) && x < NR_SLOTS && p.rts == {} && 0 <= p.priority < NR_SCHED_QUEUES
    ensures ReadyMembers(t[x := p], Inserted(rq, p.priority, x, front), None)
  {
    var q := p.priority;
    var t' := t[x := p];
    var rq' := Inserted(rq, q, x, front);
    var l := rq[q];
    forall q', k | 0 <= q' < NR_SCHED_QUEUES && 0 <= k < |rq'[q']|
      ensures InReady(t', rq'[q'][k], q', None)
    {
      if q' != q || (front && k > 0) || (!front && k < |l|) {
        var j := if q' != q then k else if front then k - 1 else k;
        assert rq'[q'][k] == rq[q'][j];
        assert InReady(t, rq[q'][j], q', Some(x));
      }
    }
    forall y | 0 <= y < NR_SLOTS && t'[y].rts == {}
      ensures y in rq'[t'[y].priority]
    {
      if y != x {
        assert y in rq[t[y].priority];
      }
    }
  }

  /** Membership after dequeue: the process taken off becomes the exempt slot. */
  lemma MembersRemove(t: seq<Proc>, rq: seq<seq<nat>>, q: nat, k: nat)
    requires |t| == NR_SLOTS && |rq| == NR_SCHED_QUEUES && forall i :: 0 <= i < NR_SLOTS ==> 0 <= t[i].priority < NR_SCHED_QUEUES
    requires ReadyMembers(t, rq, None) && q < NR_SCHED_QUEUES && k < |rq[q]| && NoDup(rq[q])
    ensures ReadyMembers(t, rq[q := Remove(rq[q], k)], Some(rq[q][k]))
    ensures t[rq[q][k]].rts == {} && t[rq[q][k]].priority == q
  {
    var l := rq[q];
    var x := l[k];
    var rq' := rq[q := Remove(l, k)];
    assert InReady(t, l[k], q, None);
    forall q', j | 0 <= q' < NR_SCHED_QUEUES && 0 <= j < |rq'[q']|
      ensures InReady(t, rq'[q'][j], q', Some(x))
    {
      var y := rq'[q'][j];
      if q' == q {
        RemoveIn(l, k, y);
      }
      var i :| 0 <= i < |rq[q']| && rq[q'][i] == y;
      assert InReady(t, rq[q'][i], q', None);
    }
    forall y | 0 <= y < NR_SLOTS && t[y].rts == {} && y != x
      ensures y in rq'[t[y].priority]
    {
      assert y in rq[t[y].priority];
      if t[y].priority == q {
        RemoveIn(l, k, y);
      }
    }
  }

  /** The ready lists after enqueue has linked x into queue q. */
  lemma ListsInsert(s: KSnap, rq: seq<seq<nat>>, x: nat, p: Proc, front: bool)
    requires Shape(s) && |rq| == NR_SCHED_QUEUES && ReadyLists(s, rq) && ReadyMembers(s.procs, rq, Some(x))
    requires x < NR_SLOTS && SlotOk(p, x)
    ensures Linked.requires(s, x, p, p.priority, front)
    ensures var s' := Linked(s, x, p, p.priority, front);
      Shape(s') && ReadyLists(s', Inserted(rq, p.priority, x, front))
  {
    var q := p.priority;
    var l := rq[q];
    ExemptNotQueued(s.procs, rq, x, q);
    if s.heads[q].Some? {
      assert |l| > 0;
    }
    var s' := Linked(s, x, p, q, front);
    var rq' := Inserted(rq, q, x, front);
    if s.heads[q].None? {
      ListAppend(s.nextReady, s.heads[q], l, x);
      assert rq'[q] == [x];
    } else if front {
      ListPush(s.nextReady, s.heads[q], l, x);
    } else {
      ListAppend(s.nextReady, s.heads[q], l, x);
      assert s.nextReady[l[|l| - 1] := Some(x)][x := None] == s.nextReady[x := None][l[|l| - 1] := Some(x)];
    }
    forall q' | 0 <= q' < NR_SCHED_QUEUES && q' != q
      ensures IsList(s'.nextReady, s'.heads[q'], rq'[q'])
    {
      ExemptNotQueued(s.procs, rq, x, q');
      if s.heads[q].Some? && !front {
        var t := l[|l| - 1];
        QueuedOnce(s.procs, rq, Some(x), t, q, q');
        ListFrame(s.nextReady, s.heads[q'], rq[q'], t, Some(x));
        ListFrame(s.nextReady[t := Some(x)], s.heads[q'], rq[q'], x, None);
      } else {
        ListFrame(s.nextReady, s.heads[q'], rq[q'], x, s'.nextReady[x]);
      }
    }
  }

  /** The ready lists after dequeue has unlinked position k of queue q. */
  lemma ListsRemove(s: KSnap, rq: seq<seq<nat>>, q: nat, k: nat)
    requires Shape(s) && |rq| == NR_SCHED_QUEUES && ReadyLists(s, rq) && ReadyMembers(s.procs, rq, None)
    requires q < NR_SCHED_QUEUES && k < |rq[q]|
    ensures Unlinked.requires(s, rq[q], q, k)
    ensures ReadyLists(Unlinked(s, rq[q], q, k), rq[q := Remove(rq[q], k)])
  {
    var l := rq[q];
    var x := l[k];
    var s' := Unlinked(s, l, q, k);
    var rq' := rq[q := Remove(l, k)];
    NoDupPairs(l);
    if k == 0 {
      ListPop(s.nextReady, s.heads[q], l);
    } else {
      ListUnlink(s.nextReady, s.heads[q], l, k);
    }
    assert s'.tails[q] == Last(rq'[q]);
    forall q' | 0 <= q' < NR_SCHED_QUEUES && q' != q
      ensures IsList(s'.nextReady, s'.heads[q'], rq'[q'])
    {
      if k > 0 {
        var t := l[k - 1];
        QueuedOnce(s.procs, rq, None, t, q, q');
        ListFrame(s.nextReady, s.heads[q'], rq[q'], t, s.nextReady[x]);
      }
    }
  }

  /** Linking x into the queue of its priority (x runnable, off every queue) restores the queue invariant. */
  lemma LinkedOk(s: KSnap, g: Queues, x: nat, p: Proc, front: bool)
    requires Core(s, g, Some(x)) && x < NR_SLOTS && s.procs[x].rts == {}
    requires p.rts == {} && SlotOk(p, x) && p.sendTo == s.procs[x].sendTo
    ensures Linked.requires(s, x, p, p.priority, front)
    ensures Core(Linked(s, x, p, p.priority, front), g.(ready := Inserted(g.ready, p.priority, x, front)), None)
  {
    ListsInsert(s, g.ready, x, p, front);
    MembersInsert(s.procs, g.ready, x, p, front);
    SendFrame(s, Linked(s, x, p, p.priority, front), g);
  }

  /** Unlinking a queued process leaves it runnable and exempt, and keeps the rest of the invariant. */
  lemma UnlinkedOk(s: KSnap, g: Queues, q: nat, k: nat)
    requires Core(s, g, None) && q < NR_SCHED_QUEUES && k < |g.ready[q]|
    ensures var l := g.ready[q];
      && Unlinked.requires(s, l, q, k)
      && Core(Unlinked(s, l, q, k), g.(ready := g.ready[q := Remove(l, k)]), Some(l[k]))
      && s.procs[l[k]].rts == {} && s.procs[l[k]].priority == q
  {
    ListsRemove(s, g.ready, q, k);
    MembersRemove(s.procs, g.ready, q, k);
  }

  /** A process that is not on the queue of its priority is not runnable. */
  lemma NotQueuedNotRunnable(s: KSnap, g: Queues, x: nat)
    requires Core(s, g, None) && x < NR_SLOTS && x !in g.ready[s.procs[x].priority]
    ensures s.procs[x].rts != {}
  {
  }

  /** l without x. */
  function Drop(l: seq<nat>, x: nat): (r: seq<nat>)
    ensures forall y :: y in r <==> y in l && y != x
  {
    if |l| == 0 then []
    else if l[0] == x then Drop(l[1..], x)
    else [l[0]] + Drop(l[1..], x)
  }

  /** In a list without repetitions, removing the position of x removes x. */
  lemma {:induction false} DropIsRemove(l: seq<nat>, k: nat)
    requires NoDup(l) && k < |l|
    ensures Drop(l, l[k]) == Remove(l, k)
  {
    NoDupPairs(l);
    if k == 0 {
      assert l[0] !in l[1..];
      DropAbsent(l[1..], l[0]);
      assert Remove(l, 0) == l[1..];
    } else {
      var t := l[1..];
      assert forall i, j :: 0 <= i < j < |t| ==> t[i] == l[i + 1] && t[j] == l[j + 1];
      PairsNoDup(t);
      DropIsRemove(t, k - 1);
      assert Remove(l, k) == [l[0]] + Remove(t, k - 1);
    }
  }

  lemma {:induction false} DropAbsent(l: seq<nat>, x: nat)
    requires x !in l
    ensures Drop(l, x) == l
  {
    if |l| > 0 {
      assert l[1..] + [] == l[1..];
      DropAbsent(l[1..], x);
    }
  }

  /** Moving proc_ptr, next_ptr or bill_ptr to other slots keeps the queue invariant. */
  lemma PointersMove(s: KSnap, g: Queues, ex: Option<nat>, procPtr: nat, nextPtr: nat, billPtr: nat)
    requires Core(s, g, ex) && procPtr < NR_SLOTS && nextPtr < NR_SLOTS && billPtr < NR_SLOTS
    ensures Core(s.(procPtr := procPtr, nextPtr := nextPtr, billPtr := billPtr), g, ex)
  {
  }

  // ---------------------------------------------------------------------
  // pick_proc

  /** Queues below q are empty, so the search may start at q. */
  lemma LowestFrom(rq: seq<seq<nat>>, q: nat)
    requires q < |rq| && |rq[q]| == 0
    ensures Lowest(rq, q) == Lowest(rq, q + 1)
  {
  }

  /** Removing a process that is not the head of the lowest non-empty queue does not change that head. */
  lemma {:induction false} LowestKeeps(rq: seq<seq<nat>>, from: nat, q: nat, k: nat)
    requires q < |rq| && k < |rq[q]| && from <= q
    requires Lowest(rq, from) != Some(rq[q][k]) || k > 0
    ensures Lowest(rq[q := Remove(rq[q], k)], from) == Lowest(rq, from)
    decreases q - from
  {
    var rq' := rq[q := Remove(rq[q], k)];
    if from < q {
      if |rq[from]| == 0 {
        LowestKeeps(rq, from + 1, q, k);
      }
    } else {
      assert |rq[q]| > 0;
      if k > 0 {
        assert rq'[q][0] == rq[q][0];
      }
    }
  }

  /** A queue that just received x is not empty, so the lowest queue exists. */
  lemma LowestAfterInsert(rq: seq<seq<nat>>, q: nat, x: nat, front: bool)
    requires q < |rq|
    ensures Lowest(Inserted(rq, q, x, front), 0).Some?
  {
    var rq' := Inserted(rq, q, x, front);
    LowestSome(rq', 0, q);
  }

  lemma {:induction false} LowestSome(rq: seq<seq<nat>>, from: nat, q: nat)
    requires from <= q < |rq| && |rq[q]| > 0
    ensures Lowest(rq, from).Some?
    decreases q - from
  {
    if from < q && |rq[from]| == 0 {
      LowestSome(rq, from + 1, q);
    }
  }
}
