/**
 * Message passing in kernel/proc.c as functions on the kernel's tables:
 * the deadlock test of mini_send, the caller queues it appends to and
 * mini_receive takes from, the notifications of mini_notify and
 * BuildMess, and the lemmas that each step keeps the queue invariant.
 */
module KIpc {
  import opened KConst
  import opened Seqs
  import opened Links
  import opened KState
  import opened KQueues
  import opened Bitmap

  // ---------------------------------------------------------------------
  // The deadlock test

  /**
   * Following p_sendto from x through SENDING processes reaches c after at
   * least one step.  The rank bounds the walk; which rank is used does not
   * matter (ReachesRankFree).
   */
  ghost predicate Reaches(t: seq<Proc>, rank: seq<nat>, x: int, c: int)
    decreases if 0 <= x < |rank| then rank[x] else 0
  {
    && 0 <= x < |t| && x < |rank| && Sending in t[x].rts && SendSlotOk(t[x])
    && var y := SendSlot(t[x]);
       && 0 <= y < |rank| && rank[y] < rank[x]
       && (y == c || Reaches(t, rank, y, c))
  }

  /** Whether c is reached from x is a property of the table alone. */
  lemma {:induction false} ReachesRankFree(t: seq<Proc>, r1: seq<nat>, r2: seq<nat>, x: int, c: int)
    requires |t| == NR_SLOTS && RankFits(t, r1) && RankFits(t, r2)
    ensures Reaches(t, r1, x, c) == Reaches(t, r2, x, c)
    decreases if 0 <= x < |r1| then r1[x] else 0
  {
    if 0 <= x < NR_SLOTS && Sending in t[x].rts {
      ReachesRankFree(t, r1, r2, SendSlot(t[x]), c);
    }
  }

  /** Every process reached from x has a lower rank than x. */
  lemma {:induction false} ReachesLowers(t: seq<Proc>, rank: seq<nat>, x: int, c: int)
    requires Reaches(t, rank, x, c)
    ensures 0 <= c < |rank| && 0 <= x < |rank| && rank[c] < rank[x]
    decreases if 0 <= x < |rank| then rank[x] else 0
  {
    var y := SendSlot(t[x]);
    if y != c {
      ReachesLowers(t, rank, y, c);
    }
  }

  /** With a rank that fits, no chain of SENDING processes leads back to where it started. */
  lemma SendChainsAcyclic(t: seq<Proc>, rank: seq<nat>, x: int)
    requires |t| == NR_SLOTS && RankFits(t, rank)
    ensures !Reaches(t, rank, x, x)
  {
    if Reaches(t, rank, x, x) {
      ReachesLowers(t, rank, x, x);
    }
  }

  /** One step of the walk: from a SENDING x, c is reached iff it is x's destination or reached from there. */
  lemma ReachesStep(t: seq<Proc>, rank: seq<nat>, x: nat, c: int)
    requires |t| == NR_SLOTS && RankFits(t, rank) && x < NR_SLOTS && Sending in t[x].rts
    ensures Reaches(t, rank, x, c) <==> SendSlot(t[x]) == c || Reaches(t, rank, SendSlot(t[x]), c)
  {
  }

  /**
   * A process that sends to itself passes mini_send's deadlock test (no
   * SENDING chain leads from a running process back to it), and the state
   * in which it then blocks, SENDING with p_sendto naming itself, admits no
   * rank: its send chain is a cycle that nothing will ever break.
   */
  lemma SelfSendCycle(t: seq<Proc>, rank: seq<nat>, c: nat, m: Message, r: seq<nat>)
    requires |t| == NR_SLOTS && RankFits(t, rank) && c < NR_SLOTS && SlotOk(t[c], c) && t[c].rts == {}
    ensures !LockedAsWritten(t, rank, c, c) && Receiving !in t[c].rts
    ensures var p := t[c].(rts := {Sending}, sendTo := t[c].nr, messBuf := m);
      SendSlot(p) == c && !RankFits(t[c := p], r)
  {
    var t' := t[c := t[c].(rts := {Sending}, sendTo := t[c].nr, messBuf := m)];
    assert Sending in t'[c].rts && SendSlot(t'[c]) == c;
  }

  /**
   * mini_send's deadlock test as written: starting at the destination, the
   * loop follows p_sendto while the process it stands on is SENDING and
   * reports ELOCKED when a step lands on the caller.
   */
  ghost predicate LockedAsWritten(t: seq<Proc>, rank: seq<nat>, d: nat, c: nat)
  {
    Reaches(t, rank, d, c)
  }

  /** mini_send's verdict: ELOCKED when the destination is the caller itself or sends, directly or through others, to the caller. */
  ghost predicate Locked(t: seq<Proc>, rank: seq<nat>, d: nat, c: nat)
  {
    d == c || Reaches(t, rank, d, c)
  }

  // ---------------------------------------------------------------------
  // Blocking a sender

  /** A rank for the table after c blocks sending to d: everything that reaches c moves above d. */
  ghost function NewRank(t: seq<Proc>, rank: seq<nat>, c: nat, d: nat): (r: seq<nat>)
    requires d < |rank|
    ensures |r| == |rank|
  {
    seq(|rank|, i requires 0 <= i < |rank| => rank[i] + (if i == c || Reaches(t, rank, i, c) then rank[d] + 1 else 0))
  }

  /** When d does not lead back to c, blocking c on d leaves the send chains acyclic. */
  lemma RankAfterBlock(t: seq<Proc>, rank: seq<nat>, c: nat, p: Proc)
    requires |t| == NR_SLOTS && RankFits(t, rank) && c < NR_SLOTS && Sending !in t[c].rts
    requires Sending in p.rts && SendSlotOk(p) && !Locked(t, rank, SendSlot(p), c)
    ensures RankFits(t[c := p], NewRank(t, rank, c, SendSlot(p)))
  {
    var d := SendSlot(p);
    var t' := t[c := p];
    var r' := NewRank(t, rank, c, d);
    forall x | 0 <= x < NR_SLOTS && Sending in t'[x].rts
      ensures SendSlotOk(t'[x]) && r'[SendSlot(t'[x])] < r'[x]
    {
      if x != c {
        var y := SendSlot(t[x]);
        ReachesStep(t, rank, x, c);
      }
    }
  }

  /** The caller queue links after c is appended to the queue of d, whose last slot is `last`. */
  function CallerAppended(s: KSnap, d: nat, c: nat, last: Option<nat>): KSnap
    requires d < |s.callerHead| && c < |s.qLink| && (last.Some? ==> last.value < |s.qLink|)
  {
    if last.None? then s.(callerHead := s.callerHead[d := Some(c)], qLink := s.qLink[c := None])
    else s.(qLink := s.qLink[last.value := Some(c)][c := None])
  }

  /** A slot on caller queue d is on no other caller queue, and a process that is not SENDING is on none. */
  lemma CallerQueuedOnce(t: seq<Proc>, cq: seq<seq<nat>>, y: nat, d: int, e: int)
    requires |t| == NR_SLOTS && |cq| == NR_SLOTS && CallerMembers(t, cq)
    requires 0 <= d < NR_SLOTS && 0 <= e < NR_SLOTS && d != e
    ensures y in cq[d] ==> y !in cq[e]
    ensures y < NR_SLOTS && Sending !in t[y].rts ==> y !in cq[e]
  {
    forall k | 0 <= k < |cq[e]|
      ensures SendsTo(t, cq[e][k], e)
    {
    }
    if y in cq[d] {
      var i :| 0 <= i < |cq[d]| && cq[d][i] == y;
      assert SendsTo(t, cq[d][i], d);
    }
  }

  /** A process that is not SENDING is on no caller queue, and the last slot of a caller queue is on no other. */
  lemma CallersApart(t: seq<Proc>, cq: seq<seq<nat>>, c: nat, d: nat)
    requires |t| == NR_SLOTS && |cq| == NR_SLOTS && CallerMembers(t, cq) && c < NR_SLOTS && d < NR_SLOTS && Sending !in t[c].rts
    ensures forall e :: 0 <= e < NR_SLOTS ==> c !in cq[e]
    ensures |cq[d]| > 0 ==> forall e :: 0 <= e < NR_SLOTS && e != d ==> cq[d][|cq[d]| - 1] !in cq[e]
  {
    forall e | 0 <= e < NR_SLOTS
      ensures c !in cq[e]
      ensures |cq[d]| > 0 && e != d ==> cq[d][|cq[d]| - 1] !in cq[e]
    {
      CallerQueuedOnce(t, cq, c, (e + 1) % NR_SLOTS, e);
      if |cq[d]| > 0 && e != d {
        CallerQueuedOnce(t, cq, cq[d][|cq[d]| - 1], d, e);
      }
    }
  }

  /** The caller lists after appending c, which is on no caller queue, to the queue of d. */
  lemma CallersAppend(s: KSnap, cq: seq<seq<nat>>, c: nat, d: nat)
    requires Shape(s) && |cq| == NR_SLOTS && CallerLists(s, cq) && c < NR_SLOTS && d < NR_SLOTS
    requires forall e :: 0 <= e < NR_SLOTS ==> c !in cq[e]
    requires |cq[d]| > 0 ==> forall e :: 0 <= e < NR_SLOTS && e != d ==> cq[d][|cq[d]| - 1] !in cq[e]
    ensures CallerAppended.requires(s, d, c, Last(cq[d]))
    ensures var s' := CallerAppended(s, d, c, Last(cq[d]));
      Shape(s') && CallerLists(s', cq[d := cq[d] + [c]])
  {
    var l := cq[d];
    assert IsList(s.qLink, s.callerHead[d], l);
    var s' := CallerAppended(s, d, c, Last(l));
    ListAppend(s.qLink, s.callerHead[d], l, c);
    if |l| > 0 {
      assert s.qLink[l[|l| - 1] := Some(c)][c := None] == s.qLink[c := None][l[|l| - 1] := Some(c)];
    }
    forall e | 0 <= e < NR_SLOTS && e != d
      ensures IsList(s'.qLink, s'.callerHead[e], cq[e])
    {
      assert IsList(s.qLink, s.callerHead[e], cq[e]);
      if |l| > 0 {
        var last := l[|l| - 1];
        ListFrame(s.qLink, s.callerHead[e], cq[e], last, Some(c));
        ListFrame(s.qLink[last := Some(c)], s.callerHead[e], cq[e], c, None);
      } else {
        ListFrame(s.qLink, s.callerHead[e], cq[e], c, None);
      }
    }
  }

  /** Membership after c blocks sending to d: c joins the end of d's caller queue. */
  lemma MembersAppendCaller(t: seq<Proc>, cq: seq<seq<nat>>, c: nat, p: Proc)
    requires |t| == NR_SLOTS && |cq| == NR_SLOTS && CallerMembers(t, cq) && c < NR_SLOTS && Sending !in t[c].rts
    requires Sending in p.rts && SendSlotOk(p)
    ensures CallerMembers(t[c := p], cq[SendSlot(p) := cq[SendSlot(p)] + [c]])
  {
    var d := SendSlot(p);
    var t' := t[c := p];
    var cq' := cq[d := cq[d] + [c]];
    forall e, k | 0 <= e < NR_SLOTS && 0 <= k < |cq'[e]|
      ensures SendsTo(t', cq'[e][k], e)
    {
      if e != d || k < |cq[d]| {
        assert cq'[e][k] == cq[e][k];
        assert SendsTo(t, cq[e][k], e);
      }
    }
    forall x | 0 <= x < NR_SLOTS && Sending in t'[x].rts
      ensures SendSlotOk(t'[x]) && x in cq'[SendSlot(t'[x])]
    {
      if x != c {
        assert x in cq[SendSlot(t[x])];
      }
    }
  }

  /** Membership when y stops being runnable without starting to send. */
  lemma MembersBlock(t: seq<Proc>, rq: seq<seq<nat>>, y: nat, p: Proc)
    requires |t| == NR_SLOTS && |rq| == NR_SCHED_QUEUES && forall i :: 0 <= i < NR_SLOTS ==> 0 <= t[i].priority < NR_SCHED_QUEUES
    requires ReadyMembers(t, rq, Some(y)) && y < NR_SLOTS && p.rts != {} && 0 <= p.priority < NR_SCHED_QUEUES
    ensures ReadyMembers(t[y := p], rq, None)
  {
    var t' := t[y := p];
    forall q, k | 0 <= q < NR_SCHED_QUEUES && 0 <= k < |rq[q]|
      ensures InReady(t', rq[q][k], q, None)
    {
      assert InReady(t, rq[q][k], q, Some(y));
    }
  }

  /** Membership when blocked y gets new flags: it needs a queue only once it has none left, and then it is the exempt slot. */
  lemma MembersRetag(t: seq<Proc>, rq: seq<seq<nat>>, y: nat, p: Proc)
    requires |t| == NR_SLOTS && |rq| == NR_SCHED_QUEUES && forall i :: 0 <= i < NR_SLOTS ==> 0 <= t[i].priority < NR_SCHED_QUEUES
    requires ReadyMembers(t, rq, None) && y < NR_SLOTS && t[y].rts != {} && 0 <= p.priority < NR_SCHED_QUEUES
    ensures ReadyMembers(t[y := p], rq, if p.rts == {} then Some(y) else None)
  {
    var t' := t[y := p];
    var ex := if p.rts == {} then Some(y) else None;
    forall q, j | 0 <= q < NR_SCHED_QUEUES && 0 <= j < |rq[q]|
      ensures InReady(t', rq[q][j], q, ex)
    {
      assert InReady(t, rq[q][j], q, None);
    }
  }

  /**
   * mini_send's blocking path: the running caller c, just dequeued, becomes
   * SENDING to d and goes to the end of d's caller queue.
   */
  lemma BlockSendOk(s: KSnap, g: Queues, c: nat, p: Proc)
    requires Core(s, g, Some(c)) && c < NR_SLOTS && s.procs[c].rts == {}
    requires SlotOk(p, c) && p.rts == {Sending} && SendSlotOk(p) && !Locked(s.procs, g.rank, SendSlot(p), c)
    ensures var d := SendSlot(p);
      && CallerAppended.requires(s.(procs := s.procs[c := p]), d, c, Last(g.callers[d]))
      && Core(CallerAppended(s.(procs := s.procs[c := p]), d, c, Last(g.callers[d])),
              Queues(g.ready, g.callers[d := g.callers[d] + [c]], NewRank(s.procs, g.rank, c, d)), None)
  {
    var d := SendSlot(p);
    var s1 := s.(procs := s.procs[c := p]);
    CallersApart(s.procs, g.callers, c, d);
    CallersAppend(s1, g.callers, c, d);
    MembersAppendCaller(s.procs, g.callers, c, p);
    MembersBlock(s.procs, g.ready, c, p);
    RankAfterBlock(s.procs, g.rank, c, p);
    var s' := CallerAppended(s1, d, c, Last(g.callers[d]));
    assert ReadyLists(s', g.ready) by {
      assert s'.nextReady == s.nextReady && s'.heads == s.heads && s'.tails == s.tails;
    }
  }

  /** The invariant gives a receiver's caller queue as a list of slots and its privilege record. */
  lemma CallerQueueOf(s: KSnap, g: Queues, c: nat)
    requires Inv(s, g, None) && c < NR_SLOTS
    ensures IsList(s.qLink, s.callerHead[c], g.callers[c]) && s.procs[c].privId < NR_SYS_PROCS
    ensures forall i :: 0 <= i < |g.callers[c]| ==> g.callers[c][i] < NR_SLOTS
  {
    assert SlotOk(s.procs[c], c);
    forall i | 0 <= i < |g.callers[c]|
      ensures g.callers[c][i] < NR_SLOTS
    {
      assert SendsTo(s.procs, g.callers[c][i], c);
    }
  }

  /** BlockSendOk for the whole invariant: next_ptr is untouched, and c is left on no ready queue. */
  lemma BlockSendInv(s: KSnap, g: Queues, c: nat, p: Proc)
    requires Inv(s, g, Some(c)) && c < NR_SLOTS && s.procs[c].rts == {}
    requires SlotOk(p, c) && p.rts == {Sending} && SendSlotOk(p) && !Locked(s.procs, g.rank, SendSlot(p), c)
    ensures var d := SendSlot(p);
      && CallerAppended.requires(s.(procs := s.procs[c := p]), d, c, Last(g.callers[d]))
      && Inv(CallerAppended(s.(procs := s.procs[c := p]), d, c, Last(g.callers[d])),
             Queues(g.ready, g.callers[d := g.callers[d] + [c]], NewRank(s.procs, g.rank, c, d)), None)
    ensures forall q :: 0 <= q < NR_SCHED_QUEUES ==> c !in g.ready[q]
  {
    BlockSendOk(s, g, c, p);
    forall q | 0 <= q < NR_SCHED_QUEUES
      ensures c !in g.ready[q]
    {
      ExemptNotQueued(s.procs, g.ready, c, q);
    }
  }

  // ---------------------------------------------------------------------
  // Taking a sender off a caller queue

  /** The caller queue links after position k of c's caller queue (list l) is unlinked. */
  function CallerUnlinked(s: KSnap, l: seq<nat>, c: nat, k: nat): KSnap
    requires k < |l| && c < |s.callerHead| && l[k] < |s.qLink| && (k > 0 ==> l[k - 1] < |s.qLink|)
  {
    if k == 0 then s.(callerHead := s.callerHead[c := s.qLink[l[0]]])
    else s.(qLink := s.qLink[l[k - 1] := s.qLink[l[k]]])
  }

  /** The caller lists after unlinking position k of c's queue. */
  lemma CallersRemove(s: KSnap, t0: seq<Proc>, cq: seq<seq<nat>>, c: nat, k: nat)
    requires Shape(s) && |cq| == NR_SLOTS && CallerLists(s, cq) && |t0| == NR_SLOTS && CallerMembers(t0, cq)
    requires c < NR_SLOTS && k < |cq[c]|
    ensures CallerUnlinked.requires(s, cq[c], c, k)
    ensures var s' := CallerUnlinked(s, cq[c], c, k);
      Shape(s') && CallerLists(s', cq[c := Remove(cq[c], k)])
  {
    var l := cq[c];
    assert IsList(s.qLink, s.callerHead[c], l);
    var s' := CallerUnlinked(s, l, c, k);
    if k == 0 {
      ListPop(s.qLink, s.callerHead[c], l);
    } else {
      ListUnlink(s.qLink, s.callerHead[c], l, k);
      forall e | 0 <= e < NR_SLOTS && e != c
        ensures IsList(s'.qLink, s'.callerHead[e], cq[e])
      {
        CallerQueuedOnce(t0, cq, l[k - 1], c, e);
        ListFrame(s.qLink, s.callerHead[e], cq[e], l[k - 1], s.qLink[l[k]]);
      }
    }
  }

  /** Membership after the sender at position k of c's queue is released: it is no longer SENDING. */
  lemma MembersReleaseCaller(t: seq<Proc>, cq: seq<seq<nat>>, c: nat, k: nat, p: Proc)
    requires |t| == NR_SLOTS && |cq| == NR_SLOTS && CallerMembers(t, cq) && c < NR_SLOTS && k < |cq[c]| && NoDup(cq[c])
    requires p.rts == t[cq[c][k]].rts - {Sending}
    ensures SendsTo(t, cq[c][k], c)
    ensures CallerMembers(t[cq[c][k] := p], cq[c := Remove(cq[c], k)])
  {
    var l := cq[c];
    var x := l[k];
    var t' := t[x := p];
    var cq' := cq[c := Remove(l, k)];
    assert SendsTo(t, cq[c][k], c);
    forall e, j | 0 <= e < NR_SLOTS && 0 <= j < |cq'[e]|
      ensures SendsTo(t', cq'[e][j], e)
    {
      var y := cq'[e][j];
      if e == c {
        RemoveIn(l, k, y);
      } else {
        CallerQueuedOnce(t, cq, x, c, e);
      }
      var i :| 0 <= i < |cq[e]| && cq[e][i] == y;
      assert SendsTo(t, cq[e][i], e);
    }
    forall y | 0 <= y < NR_SLOTS && Sending in t'[y].rts
      ensures SendSlotOk(t'[y]) && y in cq'[SendSlot(t'[y])]
    {
      assert y in cq[SendSlot(t[y])];
      if SendSlot(t[y]) == c {
        RemoveIn(l, k, y);
      }
    }
  }

  /**
   * mini_receive's caller-queue path: the sender at position k of c's
   * queue is unlinked and loses SENDING; when that leaves it runnable it
   * becomes the slot enqueue is about to insert.
   */
  lemma ReleaseOk(s: KSnap, g: Queues, c: nat, k: nat, p: Proc)
    requires Core(s, g, None) && c < NR_SLOTS && k < |g.callers[c]|
    requires var x := g.callers[c][k]; p == s.procs[x].(rts := s.procs[x].rts - {Sending})
    ensures var x := g.callers[c][k];
      && CallerUnlinked.requires(s, g.callers[c], c, k)
      && SendsTo(s.procs, x, c)
      && Core(CallerUnlinked(s, g.callers[c], c, k).(procs := s.procs[x := p]),
              g.(callers := g.callers[c := Remove(g.callers[c], k)]), if p.rts == {} then Some(x) else None)
  {
    var x := g.callers[c][k];
    assert IsList(s.qLink, s.callerHead[c], g.callers[c]);
    CallersRemove(s, s.procs, g.callers, c, k);
    MembersReleaseCaller(s.procs, g.callers, c, k, p);
    MembersRetag(s.procs, g.ready, x, p);
    var s1 := CallerUnlinked(s, g.callers[c], c, k);
    ShapeUpdate(s1, x, p);
    ReadyListsFrame(s, s1.(procs := s.procs[x := p]), g.ready);
  }

  /** ReleaseOk for the whole invariant: the ready queues and next_ptr are untouched. */
  lemma ReleaseInv(s: KSnap, g: Queues, c: nat, k: nat, p: Proc)
    requires Inv(s, g, None) && c < NR_SLOTS && k < |g.callers[c]|
    requires var x := g.callers[c][k]; p == s.procs[x].(rts := s.procs[x].rts - {Sending})
    ensures var x := g.callers[c][k];
      && CallerUnlinked.requires(s, g.callers[c], c, k)
      && SendsTo(s.procs, x, c)
      && Inv(CallerUnlinked(s, g.callers[c], c, k).(procs := s.procs[x := p]),
             g.(callers := g.callers[c := Remove(g.callers[c], k)]), if p.rts == {} then Some(x) else None)
  {
    ReleaseOk(s, g, c, k, p);
  }

  /** Replacing one entry by a well-formed one keeps the shape of the tables. */
  lemma ShapeUpdate(s: KSnap, x: nat, p: Proc)
    requires Shape(s) && x < NR_SLOTS && SlotOk(p, x)
    ensures Shape(s.(procs := s.procs[x := p]))
  {
  }

  /** The ready lists only depend on p_nextready and the head and tail pointers. */
  lemma ReadyListsFrame(s: KSnap, s': KSnap, rq: seq<seq<nat>>)
    requires Shape(s) && Shape(s') && |rq| == NR_SCHED_QUEUES && ReadyLists(s, rq)
    requires s'.nextReady == s.nextReady && s'.heads == s.heads && s'.tails == s.tails
    ensures ReadyLists(s', rq)
  {
  }

  // ---------------------------------------------------------------------
  // Other changes to one entry

  /**
   * Changing the flags of a blocked process without touching SENDING or
   * p_sendto; when no flag is left it becomes the slot enqueue is about to
   * insert.
   */
  lemma RetagOk(s: KSnap, g: Queues, y: nat, p: Proc)
    requires Core(s, g, None) && y < NR_SLOTS && s.procs[y].rts != {} && SlotOk(p, y)
    requires (Sending in p.rts <==> Sending in s.procs[y].rts) && p.sendTo == s.procs[y].sendTo
    ensures Core(s.(procs := s.procs[y := p]), g, if p.rts == {} then Some(y) else None)
  {
    MembersRetag(s.procs, g.ready, y, p);
    SendFrame(s, s.(procs := s.procs[y := p]), g);
  }

  /** A process taken off the ready queues that gets a flag other than SENDING. */
  lemma BlockedOk(s: KSnap, g: Queues, y: nat, p: Proc)
    requires Core(s, g, Some(y)) && y < NR_SLOTS && s.procs[y].rts == {} && SlotOk(p, y)
    requires p.rts != {} && Sending !in p.rts && p.sendTo == s.procs[y].sendTo
    ensures Core(s.(procs := s.procs[y := p]), g, None)
  {
    MembersBlock(s.procs, g.ready, y, p);
    SendFrame(s, s.(procs := s.procs[y := p]), g);
  }

  /** RetagOk for the whole invariant. */
  lemma RetagInv(s: KSnap, g: Queues, y: nat, p: Proc)
    requires Inv(s, g, None) && y < NR_SLOTS && s.procs[y].rts != {} && SlotOk(p, y)
    requires (Sending in p.rts <==> Sending in s.procs[y].rts) && p.sendTo == s.procs[y].sendTo
    ensures Inv(s.(procs := s.procs[y := p]), g, if p.rts == {} then Some(y) else None)
  {
    RetagOk(s, g, y, p);
  }

  /** BlockedOk for the whole invariant. */
  lemma BlockedInv(s: KSnap, g: Queues, y: nat, p: Proc)
    requires Inv(s, g, Some(y)) && y < NR_SLOTS && s.procs[y].rts == {} && SlotOk(p, y)
    requires p.rts != {} && Sending !in p.rts && p.sendTo == s.procs[y].sendTo
    ensures Inv(s.(procs := s.procs[y := p]), g, None)
  {
    BlockedOk(s, g, y, p);
  }

  /** Replacing a privilege record by a well-formed one keeps the queue invariant. */
  lemma PrivUpdateOk(s: KSnap, g: Queues, ex: Option<nat>, i: nat, v: Priv)
    requires Core(s, g, ex) && i < NR_SYS_PROCS && PrivOk(v, i)
    ensures Core(s.(privs := s.privs[i := v]), g, ex)
  {
    var s' := s.(privs := s.privs[i := v]);
    assert ReadyLists(s', g.ready) by {
      assert s'.nextReady == s.nextReady && s'.heads == s.heads && s'.tails == s.tails;
    }
    assert CallerLists(s', g.callers) by {
      assert s'.qLink == s.qLink && s'.callerHead == s.callerHead;
    }
  }

  /** PrivUpdateOk for the whole invariant. */
  lemma PrivUpdateInv(s: KSnap, g: Queues, ex: Option<nat>, i: nat, v: Priv)
    requires Inv(s, g, ex) && i < NR_SYS_PROCS && PrivOk(v, i)
    ensures Inv(s.(privs := s.privs[i := v]), g, ex)
  {
    PrivUpdateOk(s, g, ex, i, v);
  }

  /** FieldsOk for the whole invariant. */
  lemma FieldsInv(s: KSnap, g: Queues, y: nat, p: Proc)
    requires Inv(s, g, None) && y < NR_SLOTS && SlotOk(p, y)
    requires p.rts == s.procs[y].rts && p.priority == s.procs[y].priority && p.sendTo == s.procs[y].sendTo
    ensures Inv(s.(procs := s.procs[y := p]), g, None)
  {
    FieldsOk(s, g, None, y, p);
  }

  /** Changing fields of an entry that no queue depends on keeps the queue invariant. */
  lemma FieldsOk(s: KSnap, g: Queues, ex: Option<nat>, y: nat, p: Proc)
    requires Core(s, g, ex) && y < NR_SLOTS && SlotOk(p, y)
    requires p.rts == s.procs[y].rts && p.priority == s.procs[y].priority && p.sendTo == s.procs[y].sendTo
    ensures Core(s.(procs := s.procs[y := p]), g, ex)
  {
    var t' := s.procs[y := p];
    forall q, j | 0 <= q < NR_SCHED_QUEUES && 0 <= j < |g.ready[q]|
      ensures InReady(t', g.ready[q][j], q, ex)
    {
      assert InReady(s.procs, g.ready[q][j], q, ex);
    }
    SendFrame(s, s.(procs := t'), g);
  }

  // ---------------------------------------------------------------------
  // Messages

  /** CopyMess: cp_mess stamps the copy with the sender's process number. */
  function Stamped(m: Message, src: int): (r: Message)
    ensures r.source == src
  {
    m.(source := src)
  }

  /** A notification together with the receiver's privilege record after BuildMess. */
  datatype Built = Built(msg: Message, rec: Priv)

  /**
   * BuildMess: a notification from src stamped with the uptime; one from
   * HARDWARE carries the receiver's pending interrupts and one from SYSTEM
   * its pending signals, which the record then no longer holds.
   */
  function BuildMess(src: int, v: Priv, uptime: int): (b: Built)
    ensures b.msg.Notice? && b.msg.source == src && b.msg.mtype == NotifyFrom(src) && b.msg.timestamp == uptime
    ensures b.rec.notifyPending == v.notifyPending && b.rec.id == v.id
    ensures src == HARDWARE ==> b.msg.arg == IrqIds(v.intPending) && b.rec == v.(intPending := {})
    ensures src == SYSTEM ==> b.msg.arg == Signals(v.sigPending) && b.rec == v.(sigPending := {})
    ensures src != HARDWARE && src != SYSTEM ==> b.msg.arg == Unset && b.rec == v
  {
    var m := Notice(src, NotifyFrom(src), uptime, Unset);
    if src == HARDWARE then Built(m.(arg := IrqIds(v.intPending)), v.(intPending := {}))
    else if src == SYSTEM then Built(m.(arg := Signals(v.sigPending)), v.(sigPending := {}))
    else Built(m, v)
  }

  /** p is blocked in a receive (not still in the send half of a SENDREC) that accepts a message from nr. */
  predicate WaitsFor(p: Proc, nr: int)
  {
    Receiving in p.rts && Sending !in p.rts && Accepts(p.getFrom, nr)
  }

  /**
   * mini_notify delivers at once to a process blocked in a receive that
   * accepts the notifier, unless that process is inside a SENDREC.
   */
  predicate NotifyDelivers(p: Proc, v: Priv, nr: int)
  {
    WaitsFor(p, nr) && SendrecBusy !in v.flags
  }

  /** The scheduler's state: rdy_head/rdy_tail as the ready queues, sched's prev_ptr, proc_ptr, next_ptr and bill_ptr. */
  datatype Ready = Ready(queues: seq<seq<nat>>, prev: Option<nat>, cur: nat, next: nat, bill: nat)

  /**
   * enqueue of slot x from table t1 and scheduler state s0 (records v):
   * x's entry becomes sched's, x goes on the queue and at the end sched
   * chooses, and pick_proc makes the head of the highest non-empty queue
   * next_ptr, and bill_ptr too when it is billable.
   */
  /** Slot i is charged for system time when it runs: its privilege record has BILLABLE. */
  predicate Billed(t: seq<Proc>, v: seq<Priv>, i: nat)
  {
    i < |t| && t[i].privId < |v| && Billable in v[t[i].privId].flags
  }

  ghost predicate Enqueued(t1: seq<Proc>, v: seq<Priv>, s0: Ready, x: nat, t: seq<Proc>, s: Ready)
  {
    && x < |t1|
    && var r := Sched(t1[x], s0.prev, x);
      && 0 <= r.queue < |s0.queues|
      && t == t1[x := r.p] && s.prev == r.prev && s.cur == s0.cur
      && s.queues == Inserted(s0.queues, r.queue, x, r.front)
      && Lowest(s.queues, 0).Some? && s.next == Lowest(s.queues, 0).value
      && s.bill == (if Billed(t, v, s.next) then s.next else s0.bill)
  }

  /** The step that may wake x: with no flag left in t1 it is enqueued, otherwise nothing else changes. */
  ghost predicate Readied(t1: seq<Proc>, v: seq<Priv>, s0: Ready, x: nat, t: seq<Proc>, s: Ready)
  {
    && x < |t1|
    && if t1[x].rts == {} then Enqueued(t1, v, s0, x, t, s) else t == t1 && s == s0
  }

  /**
   * dequeue of slot x from table t and scheduler state s0 (records v): a
   * runnable x leaves the queue of its priority, every other queue keeps
   * its order, and pick_proc runs when x was proc_ptr or next_ptr; a
   * process that is not runnable leaves the scheduler as it was.
   */
  ghost predicate Dequeued(t: seq<Proc>, v: seq<Priv>, s0: Ready, x: nat, s: Ready)
  {
    && x < |t|
    && if t[x].rts == {} then
         var q := t[x].priority;
         var picked := (x == s0.cur || x == s0.next) && Lowest(s.queues, 0).Some?;
         && 0 <= q < |s0.queues|
         && s.queues == s0.queues[q := Drop(s0.queues[q], x)]
         && s.prev == s0.prev && s.cur == s0.cur
         && s.next == (if picked then Lowest(s.queues, 0).value else s0.next)
         && s.bill == (if picked && Billed(t, v, s.next) then s.next else s0.bill)
       else s == s0
  }

  /** The scheduler state dequeue leaves when it takes the runnable x of table t (records v) out of s0. */
  ghost function Unqueued(t: seq<Proc>, v: seq<Priv>, s0: Ready, x: nat): Ready
    requires x < |t| && 0 <= t[x].priority < |s0.queues|
  {
    var q := t[x].priority;
    var rq := s0.queues[q := Drop(s0.queues[q], x)];
    var picked := (x == s0.cur || x == s0.next) && Lowest(rq, 0).Some?;
    var next := if picked then Lowest(rq, 0).value else s0.next;
    Ready(rq, s0.prev, s0.cur, next, if picked && Billed(t, v, next) then next else s0.bill)
  }

  /** For a runnable x, Dequeued has exactly one outcome, Unqueued's. */
  lemma DequeuedUnqueued(t: seq<Proc>, v: seq<Priv>, s0: Ready, x: nat, s: Ready)
    requires Dequeued(t, v, s0, x, s) && t[x].rts == {}
    ensures 0 <= t[x].priority < |s0.queues| && s == Unqueued(t, v, s0, x)
  {
  }

  /**
   * The table after a notification to x: only x's entry changes, in its
   * buffer, its flags (at most RECEIVING goes) and, when it is woken and
   * scheduled, its quantum and priority.
   */
  ghost predicate Notified(t0: seq<Proc>, t: seq<Proc>, x: nat)
  {
    && |t| == |t0| && x < |t0|
    && t == t0[x := t[x]]
    && t[x] == t0[x].(messBuf := t[x].messBuf, rts := t[x].rts, ticksLeft := t[x].ticksLeft, priority := t[x].priority)
    && t[x].rts - {Receiving} == t0[x].rts - {Receiving}
  }

  /**
   * What mini_send from slot c to slot d with message m, returning r, made
   * of table t0, caller queues cq0 and scheduler state s0 (records v):
   * nothing on an error; when d waits for c, d holds m stamped with c's
   * number, is no longer RECEIVING and is enqueued when no flag is left
   * (Readied), and no other entry changes; otherwise c is SENDING m to d
   * at the end of d's caller queue and has been dequeued (Dequeued).
   */
  ghost predicate SendDone(t0: seq<Proc>, v: seq<Priv>, cq0: seq<seq<nat>>, s0: Ready, t: seq<Proc>, cq: seq<seq<nat>>, s: Ready,
                           c: nat, d: nat, m: Message, r: int)
  {
    && c < |t0| && d < |t0| && |t| == |t0| && d < |cq0|
    && if r != OK then t == t0 && cq == cq0 && s == s0
       else if WaitsFor(t0[d], t0[c].nr) then
         && Readied(t0[d := t0[d].(messBuf := Stamped(m, t0[c].nr), rts := t0[d].rts - {Receiving})], v, s0, d, t, s)
         && cq == cq0
       else
         && t == t0[c := t0[c].(messBuf := m, rts := {Sending}, sendTo := d - NR_TASKS)]
         && cq == cq0[d := cq0[d] + [c]]
         && Dequeued(t0, v, s0, c, s)
         && forall q :: 0 <= q < |s.queues| ==> c !in s.queues[q]
  }

  /**
   * What mini_receive by slot c from src (non-blocking when nb), returning
   * r, made of table t0, records v0, caller queues cq0 and scheduler state
   * s0, by what ReceivePick chooses: a pending notification is built into
   * c's buffer and leaves c's record; the chosen sender's message is copied
   * to c stamped with its number, the sender is no longer SENDING, leaves
   * c's caller queue and is enqueued when no flag is left (Readied), and
   * no other entry or field changes; with neither, c blocks RECEIVING from
   * src and is dequeued (Dequeued), or nothing changes and r is ENOTREADY.
   */
  ghost predicate ReceiveDone(t0: seq<Proc>, v0: seq<Priv>, cq0: seq<seq<nat>>, s0: Ready,
                              t: seq<Proc>, v: seq<Priv>, cq: seq<seq<nat>>, s: Ready,
                              c: nat, src: int, nb: bool, uptime: int, r: int)
  {
    && c < |t0| && c < |cq0| && t0[c].privId < |v0| && |v0| == NR_SYS_PROCS && |t| == |t0|
    && (forall i :: 0 <= i < |cq0[c]| ==> cq0[c][i] < |t0|)
    && var pid := t0[c].privId;
      var pick := ReceivePick(t0[c], v0[pid], Owners(v0), t0, cq0[c], src);
      && r == (if pick.Nothing? && nb then ENOTREADY else OK)
      && (pick.Notification? ==>
            var b := BuildMess(v0[pick.id].procNr, v0[pid].(notifyPending := v0[pid].notifyPending - {pick.id}), uptime);
            v == v0[pid := b.rec] && t == t0[c := t0[c].(messBuf := b.msg)] && cq == cq0 && s == s0)
      && (pick.Caller? ==>
            var x := cq0[c][pick.k];
            && x != c
            && Readied(t0[c := t0[c].(messBuf := Stamped(t0[x].messBuf, t0[x].nr))][x := t0[x].(rts := t0[x].rts - {Sending})],
                       v0, s0, x, t, s)
            && cq == cq0[c := Remove(cq0[c], pick.k)] && v == v0)
      && (pick.Nothing? && !nb ==>
            && t == t0[c := t0[c].(getFrom := src, rts := t0[c].rts + {Receiving})] && cq == cq0 && v == v0
            && Dequeued(t0, v0, s0, c, s))
      && (pick.Nothing? && nb ==> t == t0 && cq == cq0 && v == v0 && s == s0)
  }

  /** mini_receive changes no privilege record's flags: a notification taken changes only what BuildMess reports. */
  lemma ReceiveKeepsFlags(t0: seq<Proc>, v0: seq<Priv>, cq0: seq<seq<nat>>, s0: Ready,
                          t: seq<Proc>, v: seq<Priv>, cq: seq<seq<nat>>, s: Ready,
                          c: nat, src: int, nb: bool, uptime: int, r: int)
    requires ReceiveDone(t0, v0, cq0, s0, t, v, cq, s, c, src, nb, uptime, r)
    ensures |v| == |v0| && forall j :: 0 <= j < |v0| ==> v[j].flags == v0[j].flags
  {
  }

  /** The process table, privilege records, caller queues and scheduler state at one point of a kernel call. */
  datatype Stage = Stage(t: seq<Proc>, v: seq<Priv>, cq: seq<seq<nat>>, s: Ready)

  /**
   * What sys_call's SEND case (sendrec false) or SENDREC case (sendrec
   * true) made of t0, v0, cq0, rq0, for caller c, destination d, source
   * src and mini_send's verdict sv: SENDREC first sets SENDREC_BUSY in c's
   * record; mini_send's outcome is the stage mid; SEND, or a SENDREC whose
   * send failed, ends there with r the verdict; a SENDREC whose send
   * succeeded goes on with mini_receive from src.
   */
  ghost predicate SendCallDone(t0: seq<Proc>, v0: seq<Priv>, cq0: seq<seq<nat>>, s0: Ready, mid: Stage,
                               t: seq<Proc>, v: seq<Priv>, cq: seq<seq<nat>>, s: Ready,
                               c: nat, d: nat, src: int, m: Message, nb: bool, sendrec: bool, uptime: int, sv: int, r: int)
  {
    && c < |t0| && t0[c].privId < |v0|
    && var pid := t0[c].privId;
      && mid.v == (if sendrec then v0[pid := v0[pid].(flags := v0[pid].flags + {SendrecBusy})] else v0)
      && SendDone(t0, mid.v, cq0, s0, mid.t, mid.cq, mid.s, c, d, m, sv)
      && (!sendrec || sv != OK ==> r == sv && t == mid.t && v == mid.v && cq == mid.cq && s == mid.s)
      && (sendrec && sv == OK ==> ReceiveDone(mid.t, mid.v, mid.cq, mid.s, t, v, cq, s, c, src, nb, uptime, r))
  }

  /** What sys_call's RECEIVE case made: SENDREC_BUSY leaves c's record, then mini_receive from src (ReceiveDone). */
  ghost predicate ReceiveCallDone(t0: seq<Proc>, v0: seq<Priv>, cq0: seq<seq<nat>>, s0: Ready,
                                  t: seq<Proc>, v: seq<Priv>, cq: seq<seq<nat>>, s: Ready,
                                  c: nat, src: int, nb: bool, uptime: int, r: int)
  {
    && c < |t0| && t0[c].privId < |v0|
    && var pid := t0[c].privId;
      ReceiveDone(t0, v0[pid := v0[pid].(flags := v0[pid].flags - {SendrecBusy})], cq0, s0, t, v, cq, s, c, src, nb, uptime, r)
  }

  /**
   * What mini_notify from slot c to slot d made of table t0, records v0 and
   * scheduler state s0: when d waits for c outside a SENDREC, d holds the
   * notice build_mess makes, is no longer RECEIVING and is enqueued when no
   * flag is left (Readied); otherwise c's record id is pending in d's
   * record and the table and scheduler are unchanged.
   */
  ghost predicate NotifyDone(t0: seq<Proc>, v0: seq<Priv>, s0: Ready, t: seq<Proc>, v: seq<Priv>, s: Ready, c: nat, d: nat, uptime: int)
  {
    && c < |t0| && d < |t0| && |t| == |t0| && t0[c].privId < |v0| && t0[d].privId < |v0|
    && var pd := t0[d].privId;
      if NotifyDelivers(t0[d], v0[pd], t0[c].nr) then
        var b := BuildMess(t0[c].nr, v0[pd], uptime);
        && v == v0[pd := b.rec]
        && Readied(t0[d := t0[d].(messBuf := b.msg, rts := t0[d].rts - {Receiving})], v, s0, d, t, s)
      else
        && v == v0[pd := v0[pd].(notifyPending := v0[pd].notifyPending + {v0[t0[c].privId].id})]
        && t == t0 && s == s0
  }

  /** A notification's table is a Notified one for its destination. */
  lemma NotifiedBy(t0: seq<Proc>, v0: seq<Priv>, s0: Ready, t: seq<Proc>, v: seq<Priv>, s: Ready, c: nat, d: nat, uptime: int)
    requires NotifyDone(t0, v0, s0, t, v, s, c, d, uptime)
    ensures Notified(t0, t, d)
  {
  }

  /** What mini_send returns to c sending to d. */
  ghost function SendVerdict(t: seq<Proc>, rank: seq<nat>, c: nat, d: nat, nonBlocking: bool): (r: int)
    requires c < |t| && d < |t|
    ensures r in {OK, ELOCKED, ENOTREADY}
    ensures r == ENOTREADY ==> nonBlocking && !WaitsFor(t[d], t[c].nr) && !Locked(t, rank, d, c)
  {
    if Locked(t, rank, d, c) then ELOCKED
    else if WaitsFor(t[d], t[c].nr) || !nonBlocking then OK
    else ENOTREADY
  }

  /** A receive from src accepts a message from nr. */
  predicate Accepts(src: int, nr: int)
  {
    src == ANY || src == nr
  }

  /** The first position from `from` on in caller queue l whose process a receive from src accepts. */
  function FirstCaller(t: seq<Proc>, l: seq<nat>, src: int, from: nat): (r: Option<nat>)
    requires forall i :: 0 <= i < |l| ==> l[i] < |t|
    decreases |l| - from
    ensures r.Some? ==> from <= r.value < |l| && Accepts(src, t[l[r.value]].nr)
    ensures r.Some? ==> forall i :: from <= i < r.value ==> !Accepts(src, t[l[i]].nr)
    ensures r.None? ==> forall i :: from <= i < |l| ==> !Accepts(src, t[l[i]].nr)
  {
    if from >= |l| then None
    else if Accepts(src, t[l[from]].nr) then Some(from)
    else FirstCaller(t, l, src, from + 1)
  }

  /** What a receive takes: a pending notification, the sender at a position of the caller queue, or nothing. */
  datatype Pick = Notification(id: nat) | Caller(k: nat) | Nothing

  /**
   * mini_receive's choice for a caller p with privilege record v, caller
   * queue l and process table t: nothing while p is still sending; else a
   * pending notification from an acceptable source, unless a SENDREC is in
   * progress; else the first acceptable sender on the caller queue.
   */
  function ReceivePick(p: Proc, v: Priv, owner: seq<int>, t: seq<Proc>, l: seq<nat>, src: int): (r: Pick)
    requires |owner| == NR_SYS_PROCS && forall i :: 0 <= i < |l| ==> l[i] < |t|
    ensures r.Notification? ==>
      && Sending !in p.rts && SendrecBusy !in v.flags
      && r.id < NR_SYS_PROCS && r.id in v.notifyPending && Accepts(src, owner[r.id])
    ensures r.Caller? ==> Sending !in p.rts && r.k < |l| && Accepts(src, t[l[r.k]].nr)
    ensures r.Caller? ==> forall i :: 0 <= i < r.k ==> !Accepts(src, t[l[i]].nr)
    ensures !r.Notification? && Sending !in p.rts && SendrecBusy !in v.flags ==>
      forall i :: 0 <= i < NR_SYS_PROCS && i in v.notifyPending ==> !Accepts(src, owner[i])
    ensures r.Nothing? && Sending !in p.rts ==> forall i :: 0 <= i < |l| ==> !Accepts(src, t[l[i]].nr)
  {
    if Sending in p.rts then Nothing
    else
      var n := if SendrecBusy !in v.flags then FirstNotify(v.notifyPending, src, owner, 0) else None;
      if n.Some? then Notification(n.value)
      else
        match FirstCaller(t, l, src, 0)
        case Some(k) => Caller(k)
        case None => Nothing
  }

  /**
   * A notification left pending is not lost: a later receive outside a
   * send and a SENDREC, from a source that accepts its sender, picks a
   * pending notification, this one or one with a lower id.
   */
  lemma PendingNotifyPicked(p: Proc, v: Priv, owner: seq<int>, t: seq<Proc>, l: seq<nat>, src: int, id: nat)
    requires |owner| == NR_SYS_PROCS && forall i :: 0 <= i < |l| ==> l[i] < |t|
    requires Sending !in p.rts && SendrecBusy !in v.flags
    requires id < NR_SYS_PROCS && id in v.notifyPending && Accepts(src, owner[id])
    ensures ReceivePick(p, v, owner, t, l, src).Notification?
    ensures ReceivePick(p, v, owner, t, l, src).id <= id
  {
  }

  // ---------------------------------------------------------------------
  // Pending notifications

  /** id_to_nr for every privilege id: the process that owns each record. */
  function Owners(privs: seq<Priv>): (o: seq<int>)
    requires |privs| == NR_SYS_PROCS
    ensures |o| == NR_SYS_PROCS && forall i :: 0 <= i < NR_SYS_PROCS ==> o[i] == privs[i].procNr
  {
    seq(NR_SYS_PROCS, i requires 0 <= i < NR_SYS_PROCS => privs[i].procNr)
  }

  /**
   * The notification a receive from src picks up: the lowest pending
   * privilege id from `from` on whose owner src accepts.
   */
  function FirstNotify(pend: set<nat>, src: int, owner: seq<int>, from: nat): (r: Option<nat>)
    requires |owner| == NR_SYS_PROCS
    decreases NR_SYS_PROCS - from
    ensures r.Some? ==> from <= r.value < NR_SYS_PROCS && r.value in pend && Accepts(src, owner[r.value])
    ensures r.Some? ==> forall i :: from <= i < r.value && i in pend ==> !Accepts(src, owner[i])
    ensures r.None? ==> forall i :: from <= i < NR_SYS_PROCS && i in pend ==> !Accepts(src, owner[i])
  {
    if from >= NR_SYS_PROCS then None
    else if from in pend && Accepts(src, owner[from]) then Some(from)
    else FirstNotify(pend, src, owner, from + 1)
  }

  /** The lowest pending id of chunk ch at offset i or above. */
  function ChunkLow(pend: set<nat>, ch: nat, i: nat): (r: Option<nat>)
    decreases BITCHUNK_BITS - i
    ensures r.Some? ==> ch * BITCHUNK_BITS + i <= r.value < (ch + 1) * BITCHUNK_BITS && r.value in pend
    ensures r.Some? ==> forall j :: ch * BITCHUNK_BITS + i <= j < r.value ==> j !in pend
    ensures r.None? ==> forall j :: ch * BITCHUNK_BITS + i <= j < (ch + 1) * BITCHUNK_BITS ==> j !in pend
  {
    if i >= BITCHUNK_BITS then None
    else if ch * BITCHUNK_BITS + i in pend then Some(ch * BITCHUNK_BITS + i)
    else ChunkLow(pend, ch, i + 1)
  }

  /**
   * mini_receive's scan as written: of each chunk of s_notify_pending only
   * the lowest pending id is looked at; when src does not accept its owner
   * the scan moves on to the next chunk.
   */
  function ChunkScan(pend: set<nat>, src: int, owner: seq<int>, ch: nat): (r: Option<nat>)
    requires |owner| == NR_SYS_PROCS
    decreases NR_SYS_CHUNKS - ch
    ensures r.Some? ==> r.value < NR_SYS_PROCS && r.value in pend && Accepts(src, owner[r.value])
  {
    if ch >= NR_SYS_CHUNKS then None
    else match ChunkLow(pend, ch, 0)
      case None => ChunkScan(pend, src, owner, ch + 1)
      case Some(id) =>
        if id >= NR_SYS_PROCS then None
        else if Accepts(src, owner[id]) then Some(id)
        else ChunkScan(pend, src, owner, ch + 1)
  }

  /** The owners of the boot privilege records: id i belongs to process i - NR_TASKS - 1. */
  function BootOwners(): (o: seq<int>)
    ensures |o| == NR_SYS_PROCS && o[2] == CLOCK && o[3] == SYSTEM
  {
    seq(NR_SYS_PROCS, i => i - NR_TASKS - 1)
  }

  /**
   * With notifications pending from CLOCK (id 2) and SYSTEM (id 3), a
   * receive from SYSTEM finds nothing as written, because only id 2 of
   * the first chunk is examined, so the caller blocks; the pending
   * notification is there to be delivered.
   */
  lemma ChunkScanMissesPending()
    ensures ChunkScan({2, 3}, SYSTEM, BootOwners(), 0) == None
    ensures FirstNotify({2, 3}, SYSTEM, BootOwners(), 0) == Some(3)
  {
    var o := BootOwners();
    assert ChunkLow({2, 3}, 0, 0) == Some(2) by {
      assert ChunkLow({2, 3}, 0, 2) == Some(2);
      assert ChunkLow({2, 3}, 0, 1) == ChunkLow({2, 3}, 0, 2);
    }
    assert ChunkLow({2, 3}, 1, 0) == None;
    assert FirstNotify({2, 3}, SYSTEM, o, 0) == FirstNotify({2, 3}, SYSTEM, o, 3) by {
      assert FirstNotify({2, 3}, SYSTEM, o, 2) == FirstNotify({2, 3}, SYSTEM, o, 3);
      assert FirstNotify({2, 3}, SYSTEM, o, 1) == FirstNotify({2, 3}, SYSTEM, o, 2);
    }
  }

  /** Whatever the scan as written delivers, the corrected scan delivers too or finds a lower acceptable id. */
  lemma FirstNotifyNoLater(pend: set<nat>, src: int, owner: seq<int>)
    requires |owner| == NR_SYS_PROCS
    ensures ChunkScan(pend, src, owner, 0).Some? ==>
      FirstNotify(pend, src, owner, 0).Some? && FirstNotify(pend, src, owner, 0).value <= ChunkScan(pend, src, owner, 0).value
  {
  }
  // ---------------------------------------------------------------------
  // The checks of sys_call

  /** The size of a message in bytes. */
  const MESS_SIZE: nat := 36
  const TWO32: nat := 0x1_0000_0000

  /**
   * The trap mask must allow the function, and only SENDREC and RECEIVE
   * may name a kernel task.
   */
  predicate TrapAllowed(trapMask: set<int>, callNr: bv32, srcDst: int)
  {
    && CallFunction(callNr) as int in trapMask
    && !(IsKernelN(srcDst) && CallFunction(callNr) != SENDREC && CallFunction(callNr) != RECEIVE)
  }

  /** The source or destination check as written: a process number, ANY, or any value for ECHO. */
  predicate SrcDstOkAsWritten(callNr: bv32, srcDst: int32)
  {
    IsOkProcN(srcDst) || srcDst == ANY || CallFunction(callNr) == ECHO
  }

  /** The corrected check: ANY is a source only, never a destination. */
  predicate SrcDstOk(callNr: bv32, srcDst: int32)
  {
    || IsOkProcN(srcDst)
    || (srcDst == ANY && CallFunction(callNr) & CHECK_DST == 0)
    || CallFunction(callNr) == ECHO
  }

  /**
   * With the check as written a SEND or NOTIFY to ANY is let through, and
   * the destination check then looks up the privilege id of proc_addr(ANY),
   * a slot far outside the process table.
   */
  lemma AnyDestinationLeavesTable()
    ensures SrcDstOkAsWritten(SEND, ANY as int32) && CallFunction(SEND) & CHECK_DST != 0
    ensures SrcDstOkAsWritten(NOTIFY, ANY as int32) && CallFunction(NOTIFY) & CHECK_DST != 0
    ensures ANY + NR_TASKS >= NR_SLOTS
    ensures !SrcDstOk(SEND, ANY as int32) && !SrcDstOk(NOTIFY, ANY as int32)
  {
  }

  /** Under the corrected check every call that names a destination names a slot of the table. */
  lemma CheckedDestinationInTable(callNr: bv32, srcDst: int32)
    requires SrcDstOk(callNr, srcDst) && CallFunction(callNr) & CHECK_DST != 0
    ensures 0 <= ProcSlot(srcDst) < NR_SLOTS
  {
    assert CallFunction(callNr) != ECHO by {
      assert ECHO & CHECK_DST == 0;
    }
  }

  /**
   * The message-pointer check: the clicks holding the first and the last
   * byte of the message, computed on 32-bit addresses, must run from the
   * data segment's start to below the stack segment's end.
   */
  predicate MessPtrOk(mPtr: nat, data: MemMap, stack: MemMap)
    requires mPtr < TWO32
  {
    var vlo := mPtr / CLICK_SIZE;
    var vhi := ((mPtr + MESS_SIZE - 1) % TWO32) / CLICK_SIZE;
    !(vlo < data.memVir || vlo > vhi || vhi >= stack.memVir + stack.memLen)
  }

  /**
   * The pointer check accepts exactly the messages that lie wholly between
   * the start of the data segment and the end of the stack segment, without
   * wrapping around the top of the address space.
   */
  lemma MessPtrOkMeans(mPtr: nat, data: MemMap, stack: MemMap)
    requires mPtr < TWO32
    ensures MessPtrOk(mPtr, data, stack) <==>
      && data.memVir * CLICK_SIZE <= mPtr
      && mPtr + MESS_SIZE <= TWO32
      && mPtr + MESS_SIZE <= (stack.memVir + stack.memLen) * CLICK_SIZE
  {
    var vlo := mPtr / CLICK_SIZE;
    var hi := mPtr + MESS_SIZE - 1;
    if hi < TWO32 {
      assert hi % TWO32 == hi;
      assert vlo <= hi / CLICK_SIZE;
      DivBelow(hi, stack.memVir + stack.memLen);
    } else {
      assert hi % TWO32 == hi - TWO32 < MESS_SIZE;
      assert (hi - TWO32) / CLICK_SIZE == 0;
      assert vlo >= (TWO32 - MESS_SIZE) / CLICK_SIZE > 0;
    }
    DivAbove(mPtr, data.memVir);
  }

  /** x / CLICK_SIZE < n iff x < n * CLICK_SIZE. */
  lemma DivBelow(x: nat, n: nat)
    ensures x / CLICK_SIZE < n <==> x + 1 <= n * CLICK_SIZE
  {
    var q := x / CLICK_SIZE;
    assert q * CLICK_SIZE <= x < (q + 1) * CLICK_SIZE;
    if q < n {
      assert (q + 1) * CLICK_SIZE <= n * CLICK_SIZE;
    } else {
      assert n * CLICK_SIZE <= q * CLICK_SIZE;
    }
  }

  /** n <= x / CLICK_SIZE iff n * CLICK_SIZE <= x. */
  lemma DivAbove(x: nat, n: nat)
    ensures n <= x / CLICK_SIZE <==> n * CLICK_SIZE <= x
  {
    DivBelow(x, n);
    if n > 0 {
      DivBelow(x, n);
    }
  }

  /**
   * The first check of sys_call that refuses the call, in the order the
   * checks run: trap mask, source or destination, message pointer, IPC
   * mask, dead destination.  OK means the call goes ahead.
   */
  function Screen(callNr: bv32, srcDst: int32, mPtr: nat, t: seq<Proc>, privs: seq<Priv>, c: nat, shutdownStarted: bool): (r: int)
    requires |t| == NR_SLOTS && |privs| == NR_SYS_PROCS && mPtr < TWO32
    requires c < NR_SLOTS && SlotOk(t[c], c)
    ensures r in {OK, ECALLDENIED, EBADSRCDST, EFAULT, EDEADDST}
    ensures var v := privs[t[c].privId]; var f := CallFunction(callNr);
      r == OK <==>
        && TrapAllowed(v.trapMask, callNr, srcDst)
        && SrcDstOk(callNr, srcDst)
        && (f & CHECK_PTR != 0 ==> MessPtrOk(mPtr, t[c].memmap[D], t[c].memmap[S]))
        && (f & CHECK_DST != 0 ==>
              && 0 <= ProcSlot(srcDst) < NR_SLOTS
              && t[ProcSlot(srcDst)].privId as int in v.ipcTo
              && (IsEmpty(t[ProcSlot(srcDst)]) ==> shutdownStarted))
    ensures !TrapAllowed(privs[t[c].privId].trapMask, callNr, srcDst) ==> r == ECALLDENIED
    ensures TrapAllowed(privs[t[c].privId].trapMask, callNr, srcDst) && !SrcDstOk(callNr, srcDst) ==> r == EBADSRCDST
    ensures r == EFAULT ==> !MessPtrOk(mPtr, t[c].memmap[D], t[c].memmap[S])
    ensures r == EDEADDST ==> !shutdownStarted
  {
    var v := privs[t[c].privId];
    var f := CallFunction(callNr);
    if !TrapAllowed(v.trapMask, callNr, srcDst) then ECALLDENIED
    else if !SrcDstOk(callNr, srcDst) then EBADSRCDST
    else if f & CHECK_PTR != 0 && !MessPtrOk(mPtr, t[c].memmap[D], t[c].memmap[S]) then EFAULT
    else if f & CHECK_DST != 0 then
      CheckedDestinationInTable(callNr, srcDst);
      var d := ProcSlot(srcDst);
      if t[d].privId as int !in v.ipcTo then ECALLDENIED
      else if IsEmpty(t[d]) && !shutdownStarted then EDEADDST
      else OK
    else OK
  }
}
