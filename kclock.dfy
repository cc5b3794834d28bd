/**
 * The clock task of kernel/clock.c: the tick counter realtime, the
 * interrupt handler clock_handler that charges the running process and
 * decides when the task must run, do_clocktick that reschedules a process
 * whose quantum is used up and runs expired alarms, set_timer and
 * reset_timer; and sys_setalarm (kernel/system/do_setalarm.c), whose
 * watchdog cause_alarm notifies the alarm's owner from CLOCK.
 *
 * The timer list of <timers.h> is a list of alarms ordered by expiry; a
 * new alarm goes after every alarm that expires no later.  Each privilege
 * record owns one alarm timer, identified here by the record's s_id.
 */
module KClock {
  import opened KConst
  import opened KState
  import opened KQueues
  import opened KIpc
  import opened KProc

  /** An active alarm: the timer of privilege record `id`, for process procNr (tmr_arg ta_int), expiring at exp. */
  datatype Alarm = Alarm(id: nat, procNr: int, exp: int)

  // ---------------------------------------------------------------------
  // The timer list

  /** Where an alarm expiring at e goes: after every alarm expiring no later. */
  function InsertPos(q: seq<Alarm>, e: int): (n: nat)
    ensures n <= |q|
    ensures forall j :: 0 <= j < n ==> q[j].exp <= e
    ensures n < |q| ==> q[n].exp > e
  {
    if q == [] || q[0].exp > e then 0 else 1 + InsertPos(q[1..], e)
  }

  /** tmrs_settimer's insertion of a into q. */
  function Placed(q: seq<Alarm>, a: Alarm): (r: seq<Alarm>)
  {
    var n := InsertPos(q, a.exp);
    q[..n] + [a] + q[n..]
  }

  /** tmrs_clrtimer: q without the timer of record id. */
  function Without(q: seq<Alarm>, id: nat): (r: seq<Alarm>)
    ensures forall a :: a in r <==> a in q && a.id != id
  {
    if q == [] then []
    else if q[0].id == id then Without(q[1..], id)
    else [q[0]] + Without(q[1..], id)
  }

  /** tmr_exp_time of record id's timer: its expiry while it is on the list, TMR_NEVER (None) otherwise. */
  function ExpOf(q: seq<Alarm>, id: nat): Option<int>
  {
    if q == [] then None
    else if q[0].id == id then Some(q[0].exp)
    else ExpOf(q[1..], id)
  }

  /** clock_timers->tmr_exp_time, or TMR_NEVER for an empty list. */
  function HeadExp(q: seq<Alarm>): Option<int>
  {
    if q == [] then None else Some(q[0].exp)
  }

  ghost predicate Sorted(q: seq<Alarm>)
  {
    forall j, l :: 0 <= j < l < |q| ==> q[j].exp <= q[l].exp
  }

  ghost predicate OneEach(q: seq<Alarm>)
  {
    forall j, l :: 0 <= j < l < |q| ==> q[j].id != q[l].id
  }

  /** The list is well formed: ordered, one alarm per record, owners that are process numbers. */
  ghost predicate TimersOk(q: seq<Alarm>)
  {
    && Sorted(q) && OneEach(q)
    && forall j :: 0 <= j < |q| ==> q[j].id < NR_SYS_PROCS && -NR_TASKS <= q[j].procNr < NR_PROCS
  }

  /** The alarm of a record on the list gives its expiry, and a record off the list has none. */
  lemma {:induction false} ExpOfMeans(q: seq<Alarm>, id: nat)
    requires OneEach(q)
    ensures ExpOf(q, id).None? <==> forall a :: a in q ==> a.id != id
    ensures forall j :: 0 <= j < |q| && q[j].id == id ==> ExpOf(q, id) == Some(q[j].exp)
  {
    if q != [] {
      assert OneEach(q[1..]) by {
        forall j, l | 0 <= j < l < |q[1..]| ensures q[1..][j].id != q[1..][l].id {
          assert q[j + 1].id != q[l + 1].id;
        }
      }
      ExpOfMeans(q[1..], id);
      if q[0].id != id {
        forall a | a in q ensures a in q[1..] || a == q[0] { }
        forall j | 0 <= j < |q| && q[j].id == id ensures ExpOf(q, id) == Some(q[j].exp) {
          assert q[1..][j - 1] == q[j];
        }
      }
    }
  }

  /** The entries of Placed(q, a): q's before the insertion point, then a, then the rest of q. */
  lemma PlacedAt(q: seq<Alarm>, a: Alarm, j: nat)
    requires j <= |q|
    ensures |Placed(q, a)| == |q| + 1
    ensures var n := InsertPos(q, a.exp);
      Placed(q, a)[j] == if j < n then q[j] else if j == n then a else q[j - 1]
  {
  }

  /** Placing adds a and nothing else. */
  lemma PlacedHolds(q: seq<Alarm>, a: Alarm)
    ensures multiset(Placed(q, a)) == multiset(q) + multiset{a}
  {
    var n := InsertPos(q, a.exp);
    assert q == q[..n] + q[n..];
  }

  /** Placing keeps the list ordered, and it holds what it held plus a. */
  lemma {:induction false} PlacedOk(q: seq<Alarm>, a: Alarm)
    requires Sorted(q)
    ensures Sorted(Placed(q, a))
    ensures multiset(Placed(q, a)) == multiset(q) + multiset{a}
  {
    PlacedHolds(q, a);
    var r := Placed(q, a);
    var n := InsertPos(q, a.exp);
    forall j, l | 0 <= j < l < |r| ensures r[j].exp <= r[l].exp {
      PlacedAt(q, a, j);
      PlacedAt(q, a, l);
      if j == n && l - 1 > n { assert q[n].exp <= q[l - 1].exp; }
    }
  }

  /** An ordered list starts with its earliest alarm, and the rest hold other records. */
  lemma HeadFirst(q: seq<Alarm>)
    requires Sorted(q) && OneEach(q) && q != []
    ensures Sorted(q[1..]) && OneEach(q[1..])
    ensures forall a :: a in q[1..] ==> q[0].exp <= a.exp && q[0].id != a.id
  {
    forall a | a in q[1..] ensures q[0].exp <= a.exp && q[0].id != a.id {
      var m :| 0 <= m < |q[1..]| && q[1..][m] == a;
      assert q[m + 1] == a;
    }
    forall j, l | 0 <= j < l < |q[1..]| ensures q[1..][j].exp <= q[1..][l].exp && q[1..][j].id != q[1..][l].id {
      assert q[j + 1].exp <= q[l + 1].exp && q[j + 1].id != q[l + 1].id;
    }
  }

  /** An alarm no later than, and of another record than, every alarm of an ordered list can go in front. */
  lemma ConsOk(x: Alarm, w: seq<Alarm>)
    requires Sorted(w) && OneEach(w)
    requires forall a :: a in w ==> x.exp <= a.exp && x.id != a.id
    ensures Sorted([x] + w) && OneEach([x] + w)
  {
    var r := [x] + w;
    forall j, l | 0 <= j < l < |r| ensures r[j].exp <= r[l].exp && r[j].id != r[l].id {
      assert r[l] == w[l - 1];
      if j > 0 { assert r[j] == w[j - 1]; } else { assert w[l - 1] in w; }
    }
  }

  /** Removing a record's timer keeps the list ordered and one alarm per record. */
  lemma {:induction false} WithoutOk(q: seq<Alarm>, id: nat)
    requires Sorted(q) && OneEach(q)
    ensures Sorted(Without(q, id)) && OneEach(Without(q, id))
  {
    if q != [] {
      HeadFirst(q);
      WithoutOk(q[1..], id);
      if q[0].id != id {
        ConsOk(q[0], Without(q[1..], id));
      }
    }
  }

  /** After Without the record has no timer, and the others keep theirs. */
  lemma WithoutExp(q: seq<Alarm>, id: nat, i: nat)
    requires OneEach(q) && Sorted(q)
    ensures ExpOf(Without(q, id), id).None?
    ensures i != id ==> ExpOf(Without(q, id), i) == ExpOf(q, i)
  {
    WithoutOk(q, id);
    var w := Without(q, id);
    ExpOfMeans(w, id);
    ExpOfMeans(w, i);
    ExpOfMeans(q, i);
    if i != id {
      if ExpOf(q, i).Some? {
        var j :| 0 <= j < |q| && q[j].id == i;
        assert q[j] in w;
      } else {
        forall a | a in w ensures a.id != i { assert a in q; }
      }
      if ExpOf(w, i).Some? {
        var j :| 0 <= j < |w| && w[j].id == i;
        assert w[j] in q;
        var m :| 0 <= m < |q| && q[m] == w[j];
      }
    }
  }

  /** The owner of the placed alarm has its expiry; other records keep theirs. */
  lemma PlacedExp(q: seq<Alarm>, a: Alarm, i: nat)
    requires TimersOk(q) && ExpOf(q, a.id).None?
    ensures OneEach(Placed(q, a))
    ensures ExpOf(Placed(q, a), a.id) == Some(a.exp)
    ensures i != a.id ==> ExpOf(Placed(q, a), i) == ExpOf(q, i)
  {
    ExpOfMeans(q, a.id);
    ExpOfMeans(q, i);
    var n := InsertPos(q, a.exp);
    var r := Placed(q, a);
    PlacedIds(q, a);
    ExpOfMeans(r, a.id);
    PlacedAt(q, a, n);
    ExpOfMeans(r, i);
    if i != a.id {
      if ExpOf(q, i).Some? {
        var j :| 0 <= j < |q| && q[j].id == i;
        if j < n { PlacedAt(q, a, j); } else { PlacedAt(q, a, j + 1); }
      }
      if ExpOf(r, i).Some? {
        var j :| 0 <= j < |r| && r[j].id == i;
        PlacedAt(q, a, j);
      }
    }
  }

  /** Placing an alarm of a record without one keeps one alarm per record. */
  lemma PlacedIds(q: seq<Alarm>, a: Alarm)
    requires OneEach(q) && forall b :: b in q ==> b.id != a.id
    ensures OneEach(Placed(q, a))
  {
    var r := Placed(q, a);
    forall j, l | 0 <= j < l < |r| ensures r[j].id != r[l].id {
      PlacedAt(q, a, j);
      PlacedAt(q, a, l);
      if j < |q| { assert q[j] in q; }
      if l - 1 < |q| { assert q[l - 1] in q; }
    }
  }

  /** Every record other than id has the same alarm expiry in q as in q0. */
  ghost predicate OthersKept(q0: seq<Alarm>, q: seq<Alarm>, id: nat)
  {
    forall i :: i != id ==> ExpOf(q, i) == ExpOf(q0, i)
  }

  /** set_timer on a well-formed list: well formed again, id's timer expires at exp, the others keep theirs. */
  lemma SetOk(q: seq<Alarm>, id: nat, nr: int, exp: int)
    requires TimersOk(q) && id < NR_SYS_PROCS && -NR_TASKS <= nr < NR_PROCS
    ensures TimersOk(Placed(Without(q, id), Alarm(id, nr, exp)))
    ensures ExpOf(Placed(Without(q, id), Alarm(id, nr, exp)), id) == Some(exp)
    ensures OthersKept(q, Placed(Without(q, id), Alarm(id, nr, exp)), id)
  {
    ResetOk(q, id);
    var w := Without(q, id);
    var a := Alarm(id, nr, exp);
    PlacedOk(w, a);
    PlacedExp(w, a, id);
    forall i | i != id ensures ExpOf(Placed(w, a), i) == ExpOf(q, i) {
      PlacedExp(w, a, i);
    }
    PlacedRanges(w, a);
  }

  /** Placing an alarm whose record and process are in range keeps every alarm in range. */
  lemma PlacedRanges(w: seq<Alarm>, a: Alarm)
    requires forall j :: 0 <= j < |w| ==> w[j].id < NR_SYS_PROCS && -NR_TASKS <= w[j].procNr < NR_PROCS
    requires a.id < NR_SYS_PROCS && -NR_TASKS <= a.procNr < NR_PROCS
    ensures var r := Placed(w, a);
      forall j :: 0 <= j < |r| ==> r[j].id < NR_SYS_PROCS && -NR_TASKS <= r[j].procNr < NR_PROCS
  {
    var r := Placed(w, a);
    forall j | 0 <= j < |r| ensures r[j].id < NR_SYS_PROCS && -NR_TASKS <= r[j].procNr < NR_PROCS {
      PlacedAt(w, a, j);
    }
  }

  /** reset_timer on a well-formed list: well formed again, id has no timer, the others keep theirs. */
  lemma ResetOk(q: seq<Alarm>, id: nat)
    requires TimersOk(q)
    ensures TimersOk(Without(q, id))
    ensures ExpOf(Without(q, id), id).None?
    ensures OthersKept(q, Without(q, id), id)
  {
    var w := Without(q, id);
    WithoutOk(q, id);
    forall i ensures ExpOf(w, id).None? && (i != id ==> ExpOf(w, i) == ExpOf(q, i)) {
      WithoutExp(q, id, i);
    }
    forall j | 0 <= j < |w| ensures w[j].id < NR_SYS_PROCS && -NR_TASKS <= w[j].procNr < NR_PROCS {
      assert w[j] in q;
      var m :| 0 <= m < |q| && q[m] == w[j];
    }
  }

  /** The alarms due at `now`: the longest prefix expiring no later than now. */
  function DueCount(q: seq<Alarm>, now: int): (n: nat)
    ensures n <= |q|
    ensures forall j :: 0 <= j < n ==> q[j].exp <= now
    ensures n < |q| ==> q[n].exp > now
  {
    if q == [] || q[0].exp > now then 0 else 1 + DueCount(q[1..], now)
  }

  /** On an ordered list, the alarms left after the due ones all expire later than now. */
  lemma DueLeavesLater(q: seq<Alarm>, now: int)
    requires Sorted(q)
    ensures forall j :: DueCount(q, now) <= j < |q| ==> q[j].exp > now
  {
    var n := DueCount(q, now);
    forall j | n <= j < |q| ensures q[j].exp > now {
      if j > n { assert q[n].exp <= q[j].exp; }
    }
  }

  /** A suffix of a well-formed list is well formed. */
  lemma SuffixOk(q: seq<Alarm>, n: nat)
    requires TimersOk(q) && n <= |q|
    ensures TimersOk(q[n..])
  {
    var r := q[n..];
    forall j, l | 0 <= j < l < |r| ensures r[j].exp <= r[l].exp && r[j].id != r[l].id {
      assert r[j] == q[j + n] && r[l] == q[l + n];
    }
    forall j | 0 <= j < |r| ensures r[j].id < NR_SYS_PROCS && -NR_TASKS <= r[j].procNr < NR_PROCS {
      assert r[j] == q[j + n];
    }
  }

  // ---------------------------------------------------------------------
  // The clock

  /** The amount clock_handler charges: the process it charges and what changes. */
  function Charged(t: seq<Proc>, privs: seq<Priv>, pp: nat, bp: nat, ticks: int): (r: seq<Proc>)
    requires |t| == NR_SLOTS && |privs| == NR_SYS_PROCS && pp < NR_SLOTS && bp < NR_SLOTS && t[pp].privId < NR_SYS_PROCS
  {
    var flags := privs[t[pp].privId].flags;
    var p := t[pp].(userTime := t[pp].userTime + ticks,
                    ticksLeft := if Preemptible in flags then t[pp].ticksLeft - ticks else t[pp].ticksLeft);
    var t1 := t[pp := p];
    if Billable in flags then t1
    else t1[bp := t1[bp].(sysTime := t1[bp].sysTime + ticks, ticksLeft := t1[bp].ticksLeft - ticks)]
  }

  /** Charged as the two steps ChargeRunning and ChargeBill take, on the process table. */
  lemma ChargedBy(t0: seq<Proc>, t1: seq<Proc>, t2: seq<Proc>, privs: seq<Priv>, pp: nat, bp: nat, ticks: int)
    requires |t0| == NR_SLOTS && |privs| == NR_SYS_PROCS && pp < NR_SLOTS && bp < NR_SLOTS && t0[pp].privId < NR_SYS_PROCS
    requires var flags := privs[t0[pp].privId].flags; var p := t0[pp];
      t1 == t0[pp := p.(userTime := p.userTime + ticks, ticksLeft := if Preemptible in flags then p.ticksLeft - ticks else p.ticksLeft)]
    requires var b := t1[bp];
      t2 == if Billable in privs[t0[pp].privId].flags then t1 else t1[bp := b.(sysTime := b.sysTime + ticks, ticksLeft := b.ticksLeft - ticks)]
    ensures t2 == Charged(t0, privs, pp, bp, ticks)
  {
  }

  /** Charging touches only the time fields, so every entry keeps its flags, priority and destination. */
  lemma ChargedKeeps(t: seq<Proc>, privs: seq<Priv>, pp: nat, bp: nat, ticks: int, i: nat)
    requires |t| == NR_SLOTS && |privs| == NR_SYS_PROCS && pp < NR_SLOTS && bp < NR_SLOTS && t[pp].privId < NR_SYS_PROCS
    requires i < NR_SLOTS
    ensures var r := Charged(t, privs, pp, bp, ticks);
      && |r| == NR_SLOTS
      && r[i] == t[i].(userTime := r[i].userTime, sysTime := r[i].sysTime, ticksLeft := r[i].ticksLeft)
      && (i != pp && i != bp ==> r[i] == t[i])
      && (i == pp ==> r[i].userTime == t[i].userTime + ticks)
      && (i == bp && Billable !in privs[t[pp].privId].flags ==> r[i].sysTime == t[i].sysTime + ticks)
  {
  }

  class Clock {
    /** realtime: ticks since boot. */
    var realtime: int
    /** lost_ticks: ticks counted outside the clock task. */
    var lostTicks: int
    /** next_timeout, TMR_NEVER as None. */
    var nextTimeout: Option<int>
    /** clock_timers, as the alarms in expiry order. */
    var timers: seq<Alarm>
    /** prev_ptr: the process that was running when the clock task was last notified. */
    var prevPtr: nat

    ghost predicate Valid()
      reads this
    {
      TimersOk(timers) && nextTimeout == HeadExp(timers) && prevPtr < NR_SLOTS && lostTicks >= 0
    }

    /**
     * set_timer: record id's timer is taken off the list and put back
     * expiring at exp, for process nr; next_timeout follows the head.
     */
    method SetTimer(id: nat, nr: int, exp: int)
      requires Valid() && id < NR_SYS_PROCS && -NR_TASKS <= nr < NR_PROCS
      modifies this
      ensures Valid()
      ensures timers == Placed(Without(old(timers), id), Alarm(id, nr, exp))
      ensures ExpOf(timers, id) == Some(exp)
      ensures OthersKept(old(timers), timers, id)
      ensures realtime == old(realtime) && lostTicks == old(lostTicks) && prevPtr == old(prevPtr)
    {
      SetOk(timers, id, nr, exp);
      var r := Placed(Without(timers, id), Alarm(id, nr, exp));
      timers := r;
      nextTimeout := HeadExp(timers);
    }

    /** reset_timer: record id's timer leaves the list; next_timeout follows the head. */
    method ResetTimer(id: nat)
      requires Valid()
      modifies this
      ensures Valid()
      ensures timers == Without(old(timers), id)
      ensures ExpOf(timers, id).None?
      ensures OthersKept(old(timers), timers, id)
      ensures realtime == old(realtime) && lostTicks == old(lostTicks) && prevPtr == old(prevPtr)
    {
      ResetOk(timers, id);
      var w := Without(timers, id);
      timers := w;
      nextTimeout := HeadExp(timers);
    }

    /**
     * clock_handler: the lost ticks plus this one are added to realtime and
     * charged (Charged).  When an alarm is due or the running process has
     * no quantum left, prev_ptr records the running process and HARDWARE
     * notifies CLOCK.  It always asks for the interrupt to be reenabled.
     */
    method ClockHandler(k: Kernel) returns (r: int)
      requires Valid() && k.Valid()
      modifies this, k, k.proc, k.priv, k.nextReady, k.rdyHead, k.rdyTail
      ensures Valid() && k.Valid() && r == 1
      ensures var ticks := old(lostTicks) + 1;
        && realtime == old(realtime) + ticks && lostTicks == 0 && timers == old(timers)
      ensures var wake := Wakes(old(k.proc[..]), old(k.priv[..]), old(k.procPtr), old(k.billPtr), old(lostTicks) + 1,
                                old(nextTimeout).Some? && old(nextTimeout).value <= realtime);
        && (wake ==> prevPtr == old(k.procPtr))
        && (!wake ==> prevPtr == old(prevPtr))
        && Ticked(old(k.proc[..]), old(k.priv[..]), old(k.ReadyState()), k.proc[..], k.priv[..], k.ReadyState(),
                  old(k.procPtr), old(k.billPtr), old(lostTicks) + 1, wake, realtime)
    {
      var ticks := lostTicks + 1;
      var now := realtime + ticks;
      var pp := k.procPtr;
      var due := nextTimeout.Some? && nextTimeout.value <= now;
      ghost var t0, v0, s0, bp := k.proc[..], k.priv[..], k.ReadyState(), k.billPtr;
      var woke := ChargeAndWake(k, ticks, due, now);
      ghost var t, v, s := k.proc[..], k.priv[..], k.ReadyState();
      assert woke == Wakes(t0, v0, pp, bp, ticks, due) && Ticked(t0, v0, s0, t, v, s, pp, bp, ticks, woke, now);
      Advance(now, if woke then pp else prevPtr);
      r := 1;
    }

    /** clock_handler's own state: realtime becomes now, the lost ticks are counted in, and prev_ptr becomes prev. */
    method Advance(now: int, prev: nat)
      requires Valid() && prev < NR_SLOTS
      modifies this
      ensures Valid() && realtime == now && lostTicks == 0 && prevPtr == prev && timers == old(timers)
    {
      lostTicks := 0;
      realtime := now;
      prevPtr := prev;
    }

    /**
     * do_clocktick: the process recorded in prev_ptr, when it is preemptible
     * and has used up its quantum, is dequeued and enqueued again (so sched
     * gives it a new quantum).  When an alarm is due, every due alarm leaves
     * the list and its owner is notified from CLOCK, and next_timeout
     * follows the new head.  No reply is sent.
     */
    method DoClocktick(k: Kernel) returns (r: int)
      requires Valid() && k.Valid() && prevPtr < NR_SLOTS
      requires Spent(k.proc[prevPtr], k.priv[k.proc[prevPtr].privId]) ==> k.proc[prevPtr].rts == {} && k.GuardOk(prevPtr)
      modifies this, k, k.proc, k.priv, k.nextReady, k.rdyHead, k.rdyTail
      ensures Valid() && k.Valid() && r == EDONTREPLY
      ensures realtime == old(realtime) && prevPtr == old(prevPtr)
      ensures k.procPtr == old(k.procPtr) && k.callerQ == old(k.callerQ)
      ensures Clockticked(old(k.proc[..]), old(k.priv[..]), old(k.ReadyState()), old(timers),
                          k.proc[..], k.priv[..], k.ReadyState(), timers, prevPtr, realtime,
                          old(nextTimeout).Some? && old(nextTimeout).value <= realtime)
    {
      var x := prevPtr;
      ghost var t0, v0, s0 := k.proc[..], k.priv[..], k.ReadyState();
      var requeue := RequeueSpent(k, x);
      ExpireAfterRequeue(k, x, requeue, t0, v0, s0);
      r := EDONTREPLY;
    }

    /**
     * do_clocktick after its requeue step, which took table t0 and the
     * scheduler state s0 to the present ones (Requeued):
     * when next_timeout has passed the due alarms fire; either way the two
     * steps together make Clockticked.
     */
    method ExpireAfterRequeue(k: Kernel, x: nat, requeue: bool, ghost t0: seq<Proc>, ghost v0: seq<Priv>, ghost s0: Ready)
      requires Valid() && k.Valid() && x < NR_SLOTS && |t0| == NR_SLOTS && t0[x].privId < NR_SYS_PROCS
      requires v0 == k.priv[..] && requeue == Spent(t0[x], v0[t0[x].privId]) && (requeue ==> t0[x].rts == {})
      requires Requeued(t0, v0, s0, k.proc[..], k.ReadyState(), x, requeue)
      modifies this, k, k.proc, k.priv, k.nextReady, k.rdyHead, k.rdyTail
      ensures Valid() && k.Valid()
      ensures realtime == old(realtime) && prevPtr == old(prevPtr)
      ensures k.procPtr == old(k.procPtr) && k.callerQ == old(k.callerQ)
      ensures Clockticked(t0, v0, s0, old(timers), k.proc[..], k.priv[..], k.ReadyState(), timers, x, realtime,
                          old(nextTimeout).Some? && old(nextTimeout).value <= realtime)
    {
      ghost var q0 := timers;
      ghost var pl := Sched(t0[x], s0.prev, x);
      ghost var t1 := k.proc[..];
      assert requeue ==> t1[x] == pl.p && Receiving !in t1[x].rts;
      assert ClockId(t1, v0) == ClockId(t0, v0) by { assert t1[ProcSlot(CLOCK)].privId == t0[ProcSlot(CLOCK)].privId; }
      var due := nextTimeout.Some? && nextTimeout.value <= realtime;
      if due {
        ExpireTimers(k);
        assert requeue ==> k.proc[x] == pl.p;
        assert forall j :: 0 <= j < DueCount(q0, realtime) ==>
          NotifyReached(k.proc[..], k.priv[..], ProcSlot(q0[j].procNr), CLOCK, ClockId(t0, v0), realtime);
      } else {
        DueLeavesLater(timers, realtime);
        assert DueCount(timers, realtime) == 0;
      }
    }

    /**
     * tmrs_exptimers with the watchdog cause_alarm: while the head alarm is
     * due it leaves the list, its timer becomes TMR_NEVER, and CLOCK
     * notifies its process; then next_timeout follows the new head.
     */
    method ExpireTimers(k: Kernel)
      requires Valid() && k.Valid()
      modifies this, k, k.proc, k.priv, k.nextReady, k.rdyHead, k.rdyTail
      ensures Valid() && k.Valid()
      ensures realtime == old(realtime) && prevPtr == old(prevPtr)
      ensures k.procPtr == old(k.procPtr) && k.callerQ == old(k.callerQ)
      ensures timers == old(timers)[DueCount(old(timers), realtime)..]
      ensures forall j :: 0 <= j < |timers| ==> timers[j].exp > realtime
      ensures forall j :: 0 <= j < DueCount(old(timers), realtime) ==>
        NotifyReached(k.proc[..], k.priv[..], ProcSlot(old(timers)[j].procNr), CLOCK, ClockId(old(k.proc[..]), old(k.priv[..])), realtime)
      ensures IdleKept(old(k.proc[..]), k.proc[..])
    {
      DueLeavesLater(timers, realtime);
      var rest := RunDue(k, timers, realtime);
      SuffixOk(timers, DueCount(timers, realtime));
      timers := rest;
      nextTimeout := HeadExp(timers);
    }

    /**
     * sys_setalarm from process src: EPERM unless src is a system process.
     * Otherwise the time left on its previous alarm is returned (0 when
     * none is pending) and its alarm is cancelled when exp is 0, else set
     * to exp, taken as absolute or relative to now.
     */
    method DoSetalarm(k: Kernel, src: int, exp: int, absTime: bool) returns (r: int, timeLeft: int)
      requires Valid() && k.Valid() && -NR_TASKS <= src < NR_PROCS
      modifies this
      ensures Valid() && realtime == old(realtime) && prevPtr == old(prevPtr)
      ensures var id := k.proc[ProcSlot(src)].privId;
        && (r == EPERM <==> SysProc !in k.priv[id].flags)
        && (r == EPERM ==> timers == old(timers))
        && (r != EPERM ==>
              && r == OK
              && timeLeft == (if ExpOf(old(timers), id).Some? && realtime < ExpOf(old(timers), id).value
                              then ExpOf(old(timers), id).value - realtime else 0)
              && ExpOf(timers, id) == (if exp == 0 then None else Some(if absTime then exp else exp + realtime))
              && OthersKept(old(timers), timers, id))
    {
      var x := ProcSlot(src);
      var id := k.proc[x].privId;
      assert SlotOk(k.proc[x], x);
      if SysProc !in k.priv[id].flags {
        return EPERM, 0;
      }
      timeLeft := Rearm(id, src, exp, absTime);
      r := OK;
    }

    /**
     * The part of sys_setalarm past the permission check: the time left on
     * record id's alarm, which is then cancelled when exp is 0 and set to
     * exp, absolute or relative to now, otherwise.
     */
    method Rearm(id: nat, src: int, exp: int, absTime: bool) returns (timeLeft: int)
      requires Valid() && id < NR_SYS_PROCS && -NR_TASKS <= src < NR_PROCS
      modifies this
      ensures Valid() && realtime == old(realtime) && prevPtr == old(prevPtr)
      ensures timeLeft == (if ExpOf(old(timers), id).Some? && realtime < ExpOf(old(timers), id).value
                           then ExpOf(old(timers), id).value - realtime else 0)
      ensures exp == 0 ==> ExpOf(timers, id) == None
      ensures exp != 0 ==> ExpOf(timers, id) == Some(if absTime then exp else exp + old(realtime))
      ensures OthersKept(old(timers), timers, id)
    {
      var uptime := realtime;
      ghost var q0 := timers;
      var prev := ExpOf(timers, id);
      timeLeft := if prev.Some? && uptime < prev.value then prev.value - uptime else 0;
      if exp == 0 {
        ResetTimer(id);
        assert ExpOf(timers, id) == None;
      } else {
        var due := if absTime then exp else exp + uptime;
        SetTimer(id, src, due);
        assert ExpOf(timers, id) == Some(due);
      }
      assert realtime == uptime && prev == ExpOf(q0, id);
    }
  }

  /** cause_alarm, the watchdog of an alarm: CLOCK notifies the alarm's process. */
  method CauseAlarm(k: Kernel, a: Alarm, now: int)
    requires k.Valid() && -NR_TASKS <= a.procNr < NR_PROCS
    modifies k, k.proc, k.priv, k.nextReady, k.rdyHead, k.rdyTail
    ensures k.Valid() && k.procPtr == old(k.procPtr) && k.callerQ == old(k.callerQ)
    ensures Notified(old(k.proc[..]), k.proc[..], ProcSlot(a.procNr))
    ensures NotifyDone(old(k.proc[..]), old(k.priv[..]), old(k.ReadyState()), k.proc[..], k.priv[..], k.ReadyState(),
                       ProcSlot(CLOCK), ProcSlot(a.procNr), now)
  {
    NotifyOf(k, ProcSlot(CLOCK), ProcSlot(a.procNr), now);
  }

  /** clock_handler wakes the clock task when an alarm is due or the charged running process pp has no quantum left. */
  ghost predicate Wakes(t0: seq<Proc>, v0: seq<Priv>, pp: nat, bp: nat, ticks: int, due: bool)
  {
    && |t0| == NR_SLOTS && |v0| == NR_SYS_PROCS && pp < NR_SLOTS && bp < NR_SLOTS && t0[pp].privId < NR_SYS_PROCS
    && (due || Charged(t0, v0, pp, bp, ticks)[pp].ticksLeft <= 0)
  }

  /** Process p (privilege record v) has used up its quantum and may be preempted. */
  predicate Spent(p: Proc, v: Priv)
  {
    p.ticksLeft <= 0 && Preemptible in v.flags
  }

  /**
   * What do_clocktick's requeue made of table t0 and scheduler state s0
   * (records v): when requeue holds, x left its queue (Unqueued) and was
   * enqueued again as sched placed it, with a fresh quantum (Enqueued);
   * otherwise nothing changed.
   */
  ghost predicate Requeued(t0: seq<Proc>, v: seq<Priv>, s0: Ready, t: seq<Proc>, s: Ready, x: nat, requeue: bool)
  {
    && x < |t0| && |s0.queues| == NR_SCHED_QUEUES
    && 0 <= t0[x].priority < NR_SCHED_QUEUES && 0 <= t0[x].maxPriority < NR_SCHED_QUEUES
    && if requeue then t0[x].rts == {} && Enqueued(t0, v, Unqueued(t0, v, s0, x), x, t, s)
       else t == t0 && s == s0
  }

  /**
   * What do_clocktick made of table t0, records v0, scheduler state s0
   * and alarm list q0 with prev_ptr x at time now: a Spent x has sched's
   * fresh entry; without a due alarm the alarm list and the records are
   * unchanged and the table and scheduler state are Requeued's; with one,
   * the due alarms have left the list and each owner has CLOCK's
   * notification (NotifyReached); the alarms left all lie in the future.
   */
  ghost predicate Clockticked(t0: seq<Proc>, v0: seq<Priv>, s0: Ready, q0: seq<Alarm>,
                              t: seq<Proc>, v: seq<Priv>, s: Ready, q: seq<Alarm>,
                              x: nat, now: int, due: bool)
  {
    && x < |t0| == |t| && t0[x].privId < |v0| && TimersOk(q0)
    && var requeue := Spent(t0[x], v0[t0[x].privId]);
    && (requeue ==> t[x] == Sched(t0[x], s0.prev, x).p)
    && (!due ==> q == q0 && v == v0 && Requeued(t0, v0, s0, t, s, x, requeue))
    && (due ==>
          && q == q0[DueCount(q0, now)..]
          && forall j :: 0 <= j < DueCount(q0, now) ==> NotifyReached(t, v, ProcSlot(q0[j].procNr), CLOCK, ClockId(t0, v0), now))
    && forall j :: 0 <= j < |q| ==> q[j].exp > now
  }

  /** do_clocktick's first step: prev_ptr x, when Spent, is dequeued and enqueued again (lock_dequeue, lock_enqueue). */
  method RequeueSpent(k: Kernel, x: nat) returns (requeue: bool)
    requires k.Valid() && x < NR_SLOTS
    requires Spent(k.proc[x], k.priv[k.proc[x].privId]) ==> k.proc[x].rts == {} && k.GuardOk(x)
    modifies k, k.proc, k.nextReady, k.rdyHead, k.rdyTail
    ensures k.Valid() && k.procPtr == old(k.procPtr) && k.callerQ == old(k.callerQ) && k.priv[..] == old(k.priv[..])
    ensures requeue == Spent(old(k.proc[x]), old(k.priv[k.proc[x].privId]))
    ensures Requeued(old(k.proc[..]), k.priv[..], old(k.ReadyState()), k.proc[..], k.ReadyState(), x, requeue)
  {
    requeue := Spent(k.proc[x], k.priv[k.proc[x].privId]);
    assert SlotOk(k.proc[x], x);
    if requeue {
      Requeue(k, x);
    }
  }

  /** lock_dequeue then lock_enqueue of the runnable x: Requeued's outcome. */
  method Requeue(k: Kernel, x: nat)
    requires k.Valid() && x < NR_SLOTS && k.proc[x].rts == {} && k.GuardOk(x)
    modifies k, k.proc, k.nextReady, k.rdyHead, k.rdyTail
    ensures k.Valid() && k.procPtr == old(k.procPtr) && k.callerQ == old(k.callerQ) && k.priv[..] == old(k.priv[..])
    ensures Requeued(old(k.proc[..]), k.priv[..], old(k.ReadyState()), k.proc[..], k.ReadyState(), x, true)
  {
    ghost var t0, s0 := k.proc[..], k.ReadyState();
    assert SlotOk(k.proc[x], x);
    k.Dequeue(x);
    ghost var t1, s1 := k.proc[..], k.ReadyState();
    k.Enqueue(x);
    assert t1 == t0;
    DequeuedUnqueued(t0, k.priv[..], s0, x, s1);
  }

  /**
   * What clock_handler made of table t0, records v0 and scheduler state
   * s0: the ticks are charged (Charged) and, when it wakes the clock task,
   * HARDWARE's notification of CLOCK follows (NotifyDone); otherwise the
   * records and the scheduler state are unchanged.
   */
  ghost predicate Ticked(t0: seq<Proc>, v0: seq<Priv>, s0: Ready, t: seq<Proc>, v: seq<Priv>, s: Ready,
                         pp: nat, bp: nat, ticks: int, wake: bool, now: int)
  {
    && |t0| == NR_SLOTS && |v0| == NR_SYS_PROCS && pp < NR_SLOTS && bp < NR_SLOTS && t0[pp].privId < NR_SYS_PROCS
    && var t1 := Charged(t0, v0, pp, bp, ticks);
      && (wake ==> Notified(t1, t, ProcSlot(CLOCK)) && NotifyDone(t1, v0, s0, t, v, s, ProcSlot(HARDWARE), ProcSlot(CLOCK), now))
      && (!wake ==> t == t1 && v == v0 && s == s0)
  }

  /**
   * clock_handler's work on the process table: the ticks are charged, and
   * when an alarm is due or proc_ptr's quantum is used up HARDWARE notifies
   * CLOCK (the result says whether it did).
   */
  method ChargeAndWake(k: Kernel, ticks: int, due: bool, now: int) returns (woke: bool)
    requires k.Valid()
    modifies k, k.proc, k.priv, k.nextReady, k.rdyHead, k.rdyTail
    ensures k.Valid() && k.procPtr == old(k.procPtr)
    ensures && woke == Wakes(old(k.proc[..]), old(k.priv[..]), old(k.procPtr), old(k.billPtr), ticks, due)
      && Ticked(old(k.proc[..]), old(k.priv[..]), old(k.ReadyState()), k.proc[..], k.priv[..], k.ReadyState(),
                old(k.procPtr), old(k.billPtr), ticks, woke, now)
  {
    Charge(k, ticks);
    woke := due || k.proc[k.procPtr].ticksLeft <= 0;
    if woke {
      NotifyOf(k, ProcSlot(HARDWARE), ProcSlot(CLOCK), now);
    }
  }

  /**
   * A notification from process nr (record id) at time now has reached
   * slot d: d was woken with a notice from nr stamped now in its buffer,
   * or d does not wait for nr and id is pending in d's record.
   */
  ghost predicate NotifyReached(t: seq<Proc>, v: seq<Priv>, d: nat, nr: int, id: nat, now: int)
  {
    && d < |t| && t[d].privId < |v|
    && var m := t[d].messBuf;
      || (m.Notice? && m.source == nr && m.timestamp == now && Receiving !in t[d].rts)
      || (id in v[t[d].privId].notifyPending && !NotifyDelivers(t[d], v[t[d].privId], nr))
  }

  /**
   * A notification reaches its destination; it keeps every earlier one from
   * the same sender, every owner and record id, and every entry that was not
   * RECEIVING.
   */
  lemma NotifyDoneReaches(t0: seq<Proc>, v0: seq<Priv>, s0: Ready, t: seq<Proc>, v: seq<Priv>, s: Ready, c: nat, d: nat, uptime: int)
    requires NotifyDone(t0, v0, s0, t, v, s, c, d, uptime)
    ensures NotifyReached(t, v, d, t0[c].nr, v0[t0[c].privId].id, uptime)
    ensures forall y :: 0 <= y < |t0| && t0[y].privId < |v0| && NotifyReached(t0, v0, y, t0[c].nr, v0[t0[c].privId].id, uptime) ==>
      NotifyReached(t, v, y, t0[c].nr, v0[t0[c].privId].id, uptime)
    ensures |v| == |v0| && forall y :: 0 <= y < |t0| ==> t[y].privId == t0[y].privId && t[y].nr == t0[y].nr
    ensures forall j :: 0 <= j < |v0| ==> v[j].id == v0[j].id
    ensures IdleKept(t0, t)
  {
  }

  /** Every entry of t0 that was not RECEIVING is the same in t: a notification changes only a receiver it delivers to. */
  ghost predicate IdleKept(t0: seq<Proc>, t: seq<Proc>)
  {
    |t0| <= |t| && forall y :: 0 <= y < |t0| && Receiving !in t0[y].rts ==> t[y] == t0[y]
  }

  /** CLOCK's record id in table t and records v. */
  function ClockId(t: seq<Proc>, v: seq<Priv>): nat
  {
    var c := ProcSlot(CLOCK);
    if c < |t| && t[c].privId < |v| then v[t[c].privId].id else 0
  }

  /** One expired alarm: CLOCK's notice reaches q[i]'s process and keeps the earlier ones, CLOCK's id and every entry not RECEIVING. */
  lemma AlarmStep(q: seq<Alarm>, i: nat, t1: seq<Proc>, v1: seq<Priv>, s1: Ready, t2: seq<Proc>, v2: seq<Priv>, s2: Ready,
                  cid: nat, uptime: int)
    requires i < |q| && TimersOk(q)
    requires NotifyDone(t1, v1, s1, t2, v2, s2, ProcSlot(CLOCK), ProcSlot(q[i].procNr), uptime)
    requires t1[ProcSlot(CLOCK)].nr == CLOCK && ClockId(t1, v1) == cid
    requires forall j :: 0 <= j < i ==> NotifyReached(t1, v1, ProcSlot(q[j].procNr), CLOCK, cid, uptime)
    ensures ClockId(t2, v2) == cid
    ensures forall j :: 0 <= j < i + 1 ==> NotifyReached(t2, v2, ProcSlot(q[j].procNr), CLOCK, cid, uptime)
    ensures IdleKept(t1, t2)
  {
    NotifyDoneReaches(t1, v1, s1, t2, v2, s2, ProcSlot(CLOCK), ProcSlot(q[i].procNr), uptime);
  }

  /**
   * tmrs_exptimers's loop over the list q at time now: while the head alarm
   * is due it leaves the list and cause_alarm runs for it; the result is
   * what is left.
   */
  method RunDue(k: Kernel, q: seq<Alarm>, now: int) returns (rest: seq<Alarm>)
    requires k.Valid() && TimersOk(q)
    modifies k, k.proc, k.priv, k.nextReady, k.rdyHead, k.rdyTail
    ensures k.Valid() && k.procPtr == old(k.procPtr) && k.callerQ == old(k.callerQ)
    ensures rest == q[DueCount(q, now)..]
    ensures forall j :: 0 <= j < DueCount(q, now) ==>
      NotifyReached(k.proc[..], k.priv[..], ProcSlot(q[j].procNr), CLOCK, ClockId(old(k.proc[..]), old(k.priv[..])), now)
    ensures IdleKept(old(k.proc[..]), k.proc[..])
  {
    ghost var n := DueCount(q, now);
    ghost var t0 := k.proc[..];
    ghost var cid := ClockId(k.proc[..], k.priv[..]);
    DueLeavesLater(q, now);
    assert Firing(k, q, 0, t0, cid, now);
    rest := q;
    var i := 0;
    while rest != [] && rest[0].exp <= now
      invariant i <= n && rest == q[i..]
      invariant k.procPtr == old(k.procPtr) && k.callerQ == old(k.callerQ)
      // compared with true so that it is checked as one fact, which FireAlarm's postcondition gives whole
      invariant Firing(k, q, i, t0, cid, now) == true
      decreases |rest|
    {
      var a := rest[0];
      assert q[i] == a;
      rest := rest[1..];
      FireAlarm(k, a, q, i, t0, cid, now);
      i := i + 1;
    }
    assert i == n && Firing(k, q, n, t0, cid, now);
  }

  /** tmrs_exptimers before the i-th due alarm of q: CLOCK's notice has reached the owners of the first i, and no entry that was not RECEIVING in t0 has changed. */
  ghost predicate Firing(k: Kernel, q: seq<Alarm>, i: nat, t0: seq<Proc>, cid: nat, now: int)
    reads k, k.proc, k.priv, k.nextReady, k.qLink, k.callerHead, k.rdyHead, k.rdyTail
  {
    && k.Valid() && i <= |q| && TimersOk(q) && |t0| == NR_SLOTS
    && ClockId(k.proc[..], k.priv[..]) == cid
    && (forall j :: 0 <= j < i ==> NotifyReached(k.proc[..], k.priv[..], ProcSlot(q[j].procNr), CLOCK, cid, now))
    && IdleKept(t0, k.proc[..])
  }

  /** One step of tmrs_exptimers: cause_alarm for a, q's i-th alarm. */
  method FireAlarm(k: Kernel, a: Alarm, ghost q: seq<Alarm>, i: nat, ghost t0: seq<Proc>, ghost cid: nat, now: int)
    requires i < |q| && a == q[i] && Firing(k, q, i, t0, cid, now)
    modifies k, k.proc, k.priv, k.nextReady, k.rdyHead, k.rdyTail
    ensures Firing(k, q, i + 1, t0, cid, now)
    ensures k.procPtr == old(k.procPtr) && k.callerQ == old(k.callerQ)
    ensures NotifyDone(old(k.proc[..]), old(k.priv[..]), old(k.ReadyState()), k.proc[..], k.priv[..], k.ReadyState(),
                       ProcSlot(CLOCK), ProcSlot(a.procNr), now)
  {
    ghost var t1, v1, s1 := k.proc[..], k.priv[..], k.ReadyState();
    assert SlotOk(t1[ProcSlot(CLOCK)], ProcSlot(CLOCK));
    CauseAlarm(k, a, now);
    AlarmStep(q, i, t1, v1, s1, k.proc[..], k.priv[..], k.ReadyState(), cid, now);
  }

  /** lock_notify from slot c to slot d, seen from the process table and the privilege records: NotifyDone. */
  method NotifyOf(k: Kernel, c: nat, d: nat, now: int)
    requires k.Valid() && c < NR_SLOTS && d < NR_SLOTS
    modifies k, k.proc, k.priv, k.nextReady, k.rdyHead, k.rdyTail
    ensures k.Valid() && k.procPtr == old(k.procPtr) && k.callerQ == old(k.callerQ)
    ensures Notified(old(k.proc[..]), k.proc[..], d)
    ensures NotifyDone(old(k.proc[..]), old(k.priv[..]), old(k.ReadyState()), k.proc[..], k.priv[..], k.ReadyState(), c, d, now)
  {
    ghost var t0, v0, s0 := k.proc[..], k.priv[..], k.ReadyState();
    k.MiniNotify(c, d, now);
    NotifiedBy(t0, v0, s0, k.proc[..], k.priv[..], k.ReadyState(), c, d, now);
  }

  /**
   * clock_handler's accounting: ticks are charged to proc_ptr, and to
   * bill_ptr as system time when proc_ptr is not billable (Charged).
   */
  method Charge(k: Kernel, ticks: int)
    requires k.Valid()
    modifies k.proc
    ensures k.Valid()
    ensures k.proc[..] == Charged(old(k.proc[..]), k.priv[..], k.procPtr, k.billPtr, ticks)
  {
    ghost var t0 := k.proc[..];
    ghost var privs := k.priv[..];
    var pp := k.procPtr;
    var flags := k.priv[k.proc[pp].privId].flags;
    assert SlotOk(t0[pp], pp);
    ChargeRunning(k, ticks, Preemptible in flags);
    ghost var t1 := k.proc[..];
    if Billable !in flags {
      ChargeBill(k, ticks);
    }
    ChargedBy(t0, t1, k.proc[..], privs, pp, k.billPtr, ticks);
  }

  /** proc_ptr's user time grows by ticks, and its quantum shrinks when it is preemptible. */
  method ChargeRunning(k: Kernel, ticks: int, preempt: bool)
    requires k.Valid()
    modifies k.proc
    ensures k.Valid()
    ensures var pp := k.procPtr; var p := old(k.proc[pp]);
      k.proc[..] == old(k.proc[..])[pp := p.(userTime := p.userTime + ticks, ticksLeft := if preempt then p.ticksLeft - ticks else p.ticksLeft)]
  {
    var p := k.proc[k.procPtr];
    k.SetTimes(k.procPtr, p.userTime + ticks, p.sysTime, if preempt then p.ticksLeft - ticks else p.ticksLeft);
  }

  /** bill_ptr's system time grows by ticks and its quantum shrinks. */
  method ChargeBill(k: Kernel, ticks: int)
    requires k.Valid()
    modifies k.proc
    ensures k.Valid()
    ensures var bp := k.billPtr; var b := old(k.proc[bp]);
      k.proc[..] == old(k.proc[..])[bp := b.(sysTime := b.sysTime + ticks, ticksLeft := b.ticksLeft - ticks)]
  {
    var b := k.proc[k.billPtr];
    k.SetTimes(k.billPtr, b.userTime, b.sysTime + ticks, b.ticksLeft - ticks);
  }
}
