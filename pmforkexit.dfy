/**
 * FORK, EXIT and WAIT in the process manager (servers/pm/forkexit.c).
 *
 * The `mproc` table is an array of entries owned by a `ProcManager` object
 * that also keeps `procs_in_use` and the memory allocator's hole table;
 * the handlers update the entries in place.  Each handler is proved to turn
 * the old table into the one a specification function describes, and to
 * keep `procs_in_use` equal to the number of entries in use.
 */
module PmForkExit {
  import opened KConst
  import opened PmProc
  import opened PmHoles
  import opened PmAlloc

  /** The memory a process's data and stack occupy: from the data base to the stack top. */
  function ImageClicks(m: MProc): nat
  {
    U32(m.stack.memVir + m.stack.memLen - m.data.memVir)
  }

  /** prog_clicks of do_fork: the stack length plus the distance from data to stack. */
  function ForkClicks(m: MProc): nat
  {
    U32(m.stack.memLen + U32(m.stack.memVir - m.data.memVir))
  }

  /** The child do_fork builds from parent entry pm in slot who, at base, with pid newPid. */
  function Child(pm: MProc, who: nat, base: nat, newPid: int): MProc
  {
    var fl := pm.flags * INHERITED;
    pm.(parent := who, flags := fl + {Reply}, childUtime := 0, childStime := 0,
        text := if Separate in fl then pm.text else pm.text.(memPhys := base),
        data := pm.data.(memPhys := base),
        stack := pm.stack.(memPhys := U32(base + U32(pm.stack.memVir - pm.data.memVir))),
        exitStatus := 0, sigStatus := 0, pid := newPid,
        reply := pm.reply.(res := 0))
  }

  /** do_fork refuses: the table is full, or all but the last few slots are taken and the caller is not the superuser. */
  predicate ForkFull(inUse: int, pm: MProc)
  {
    inUse == NR_PROCS || (inUse >= NR_PROCS - LAST_FEW && pm.effUid != 0)
  }

  /** The base of the block alloc_mem gives do_fork for the child's image, NO_MEM if none. */
  function ForkBase(b: seq<Extent>, pm: MProc): nat
  {
    Allocated(b, ForkClicks(pm)).1
  }

  /** c is the first entry of t that is not in use. */
  predicate FirstFree(t: seq<MProc>, c: int)
  {
    0 <= c < |t| && InUse !in t[c].flags && forall j :: 0 <= j < c ==> InUse in t[j].flags
  }

  /**
   * The child is the parent's image moved to the new block: the same
   * virtual layout, data at base and the stack as far above it as in the
   * parent, only inheritable flags plus a pending reply, fresh exit state
   * and times, and pm_exit later frees exactly the ForkClicks(pm) clicks
   * do_fork allocated.
   */
  lemma ChildLayout(pm: MProc, who: nat, base: nat, newPid: int)
    ensures var ch := Child(pm, who, base, newPid);
      && ch.data.memVir == pm.data.memVir && ch.data.memLen == pm.data.memLen
      && ch.stack.memVir == pm.stack.memVir && ch.stack.memLen == pm.stack.memLen
      && ch.text.memVir == pm.text.memVir && ch.text.memLen == pm.text.memLen
      && ch.data.memPhys == base
      && U32(ch.stack.memPhys - ch.data.memPhys) == U32(pm.stack.memVir - pm.data.memVir)
      && (Separate !in pm.flags ==> ch.text.memPhys == base)
      && (Separate in pm.flags ==> ch.text == pm.text)
      && (InUse in pm.flags ==> InUse in ch.flags)
      && ch.flags <= INHERITED + {Reply}
      && ImageClicks(ch) == ForkClicks(pm)
  {
    var d := pm.stack.memVir - pm.data.memVir;
    var x := base + U32(d);
    assert U32(x) == x - (x / TWO32) * TWO32;
    assert U32(d) == d - (d / TWO32) * TWO32;
    var y := pm.stack.memLen + U32(d);
    assert U32(y) == y - (y / TWO32) * TWO32;
    var z := pm.stack.memVir + pm.stack.memLen - pm.data.memVir;
    assert U32(z) == z - (z / TWO32) * TWO32;
    assert y == z + (d / TWO32) * (0 - TWO32);
    ModShift(z, -(d / TWO32));
    var s := U32(x) - base;
    assert s == U32(d) - (x / TWO32) * TWO32;
    ModShift(U32(d), -(x / TWO32));
  }

  /** Adding a multiple of 2^32 does not change a 32-bit value. */
  lemma ModShift(z: int, k: int)
    ensures U32(z + k * TWO32) == U32(z)
  {
    var q := (z + k * TWO32) / TWO32;
    var r := (z + k * TWO32) % TWO32;
    assert z == (q - k) * TWO32 + r;
  }

  /**
   * The wait status cleanup reports: the exit status (a signed `char`)
   * in the high byte, the low byte of the signal status in the low byte.
   */
  function WaitStatus(exitStatus: int, sigStatus: int): int
  {
    exitStatus * 256 + sigStatus % 256
  }

  /**
   * The parent decodes what the child left: the low byte is the signal
   * byte and the next byte the exit status the child passed to exit, as
   * the char field stored it.
   */
  lemma WaitStatusRoundTrip(status: int, sigStatus: int)
    ensures var w := WaitStatus(SChar(status), sigStatus);
      w % 256 == sigStatus % 256 && (w / 256) % 256 == status % 256
  {
    var e := SChar(status);
    var w := WaitStatus(e, sigStatus);
    assert w / 256 == e;
    assert (e - status) % 256 == 0;
    var k := (e - status) / 256;
    assert e == status + k * 256;
  }

  /** Every entry in use names a slot of the table as its parent. */
  predicate ParentsOk(t: seq<MProc>)
  {
    forall i :: 0 <= i < |t| && InUse in t[i].flags ==> 0 <= t[i].parent < |t|
  }

  /** The table has NR_PROCS entries, n of them in use, and every entry in use has a slot as parent. */
  predicate ProcTableOk(t: seq<MProc>, n: int)
  {
    |t| == NR_PROCS && n == InUseCount(t) && ParentsOk(t)
  }

  /** An entry changed without touching its parent or whether it is in use keeps the table well formed. */
  lemma SameUse(t: seq<MProc>, n: int, i: nat, m: MProc)
    requires ProcTableOk(t, n) && i < |t|
    requires (InUse in m.flags <==> InUse in t[i].flags) && m.parent == t[i].parent
    ensures ProcTableOk(t[i := m], n)
  {
    InUseCountUpdate(t, i, m);
  }

  /**
   * cleanup: the waiting parent of c gets the wait status and c's pid as
   * its reply and stops waiting; c's entry is released.
   */
  function CleanedUp(t: seq<MProc>, c: nat): seq<MProc>
    requires c < |t| && 0 <= t[c].parent < |t|
  {
    var pa := t[c].parent;
    var t1 := t[pa := SetReply(t[pa].(reply := t[pa].reply.(res2 := WaitStatus(t[c].exitStatus, t[c].sigStatus))), t[c].pid)];
    var t2 := t1[pa := t1[pa].(flags := t1[pa].flags - {Waiting})];
    t2[c := t2[c].(pid := 0, flags := {}, childUtime := 0, childStime := 0)]
  }

  /** Cleaning up an entry in use leaves one entry fewer in use. */
  lemma CleanupOk(t: seq<MProc>, n: int, c: nat)
    requires ProcTableOk(t, n) && c < |t| && InUse in t[c].flags
    ensures ProcTableOk(CleanedUp(t, c), n - 1)
  {
    var pa := t[c].parent;
    var t1 := t[pa := SetReply(t[pa].(reply := t[pa].reply.(res2 := WaitStatus(t[c].exitStatus, t[c].sigStatus))), t[c].pid)];
    SameUse(t, n, pa, t1[pa]);
    var t2 := t1[pa := t1[pa].(flags := t1[pa].flags - {Waiting})];
    SameUse(t1, n, pa, t2[pa]);
    InUseCountUpdate(t2, c, t2[c].(pid := 0, flags := {}, childUtime := 0, childStime := 0));
  }

  /** The table after do_fork puts the child in slot c and tells the parent in slot who. */
  function Forked(t: seq<MProc>, who: nat, c: nat, base: nat, newPid: int): seq<MProc>
    requires who < |t| && c < |t|
  {
    var t1 := t[c := Child(t[who], who, base, newPid)];
    t1[who := t1[who].(reply := t1[who].reply.(procNr := c))]
  }

  /** Forking into the first free slot brings one more entry into use. */
  lemma ForkOk(t: seq<MProc>, n: int, who: nat, c: nat, base: nat, newPid: int)
    requires ProcTableOk(t, n) && who < |t| && InUse in t[who].flags && FirstFree(t, c)
    ensures ProcTableOk(Forked(t, who, c, base, newPid), n + 1)
  {
    var ch := Child(t[who], who, base, newPid);
    InUseCountUpdate(t, c, ch);
    var t1 := t[c := ch];
    SameUse(t1, n + 1, who, t1[who].(reply := t1[who].reply.(procNr := c)));
  }

  /**
   * The test pm_exit applies to a waiting parent's `mp_wpid`: any child,
   * this child's pid, or this child's process group.
   */
  predicate RightChild(pidArg: int, m: MProc)
  {
    pidArg == -1 || pidArg == m.pid || -pidArg == m.procGrp
  }

  /** Whether the waiting parent of slot p takes p at exit (cleanup) rather than leaving a zombie. */
  predicate ParentTakes(t: seq<MProc>, p: nat)
    requires p < |t| && 0 <= t[p].parent < |t|
  {
    Waiting in t[t[p].parent].flags && RightChild(t[t[p].parent].wpid, t[p])
  }

  /** pm_exit's accounting: p's times and its children's go to its parent; p's pending reply is dropped. */
  function Accounted(t: seq<MProc>, p: nat, utime: int, stime: int): seq<MProc>
    requires p < |t| && 0 <= t[p].parent < |t|
  {
    var pa := t[p].parent;
    var t1 := t[pa := t[pa].(childUtime := t[pa].childUtime + utime + t[p].childUtime,
                             childStime := t[pa].childStime + stime + t[p].childStime)];
    t1[p := t1[p].(flags := t1[p].flags - {Reply})]
  }

  /** Accounting changes no use, no parent and nothing the parent's wait test reads. */
  lemma AccountedOk(t: seq<MProc>, n: int, p: nat, utime: int, stime: int)
    requires ProcTableOk(t, n) && p < |t| && InUse in t[p].flags
    ensures var a := Accounted(t, p, utime, stime);
      ProcTableOk(a, n) && InUse in a[p].flags && a[p].parent == t[p].parent
      && ParentTakes(a, p) == ParentTakes(t, p)
  {
    var pa := t[p].parent;
    var t1 := t[pa := t[pa].(childUtime := t[pa].childUtime + utime + t[p].childUtime,
                             childStime := t[pa].childStime + stime + t[p].childStime)];
    SameUse(t, n, pa, t1[pa]);
    SameUse(t1, n, p, t1[p].(flags := t1[p].flags - {Reply}));
  }

  /**
   * The rest of pm_exit's first part: the exit status is stored, and the
   * entry is cleaned up for a waiting parent or becomes exactly
   * IN_USE | ZOMBIE.
   */
  function Released(t: seq<MProc>, p: nat, status: int): seq<MProc>
    requires p < |t| && 0 <= t[p].parent < |t|
  {
    var t2 := t[p := t[p].(exitStatus := SChar(status))];
    if ParentTakes(t2, p) then CleanedUp(t2, p) else t2[p := t2[p].(flags := {InUse, Zombie})]
  }

  /** Releasing keeps the table well formed, with one entry fewer in use when the parent takes p. */
  lemma ReleasedOk(t: seq<MProc>, n: int, p: nat, status: int)
    requires ProcTableOk(t, n) && p < |t| && InUse in t[p].flags
    ensures ProcTableOk(Released(t, p, status), if ParentTakes(t, p) then n - 1 else n)
  {
    var t2 := t[p := t[p].(exitStatus := SChar(status))];
    SameUse(t, n, p, t2[p]);
    assert ParentTakes(t2, p) == ParentTakes(t, p);
    if ParentTakes(t2, p) {
      CleanupOk(t2, n, p);
    } else {
      SameUse(t2, n, p, t2[p].(flags := {InUse, Zombie}));
    }
  }

  /** The table after the first part of pm_exit for slot p. */
  function Exited(t: seq<MProc>, p: nat, status: int, utime: int, stime: int): seq<MProc>
    requires p < |t| && 0 <= t[p].parent < |t|
  {
    Released(Accounted(t, p, utime, stime), p, status)
  }

  /** Slot i of pm_exit's loop handed to INIT. */
  function ToInit(t: seq<MProc>, i: nat): seq<MProc>
    requires i < |t|
  {
    t[i := t[i].(parent := INIT_PROC_NR)]
  }

  /** One round of pm_exit's loop: slot i, if it is a child of p, goes to INIT and is reaped if INIT waits. */
  function Disinherit(t: seq<MProc>, p: nat, i: nat): seq<MProc>
    requires i < |t| && INIT_PROC_NR < |t|
  {
    if InUse in t[i].flags && t[i].parent == p then
      var t1 := ToInit(t, i);
      if Waiting in t1[INIT_PROC_NR].flags && Zombie in t1[i].flags then CleanedUp(t1, i) else t1
    else t
  }

  /** Handing an entry in use to INIT keeps the table well formed. */
  lemma ToInitOk(t: seq<MProc>, n: int, i: nat)
    requires ProcTableOk(t, n) && i < |t| && InUse in t[i].flags
    ensures ProcTableOk(ToInit(t, i), n)
  {
    InUseCountUpdate(t, i, t[i].(parent := INIT_PROC_NR));
  }

  /** One round of the loop changes only slot i's parent, and only slot i can leave use. */
  lemma DisinheritStep(t: seq<MProc>, p: nat, i: nat)
    requires i < |t| && INIT_PROC_NR < |t|
    ensures var r := Disinherit(t, p, i);
      && |r| == |t|
      && (forall j :: 0 <= j < |t| ==>
            r[j].parent == (if j == i && InUse in t[i].flags && t[i].parent == p then INIT_PROC_NR else t[j].parent))
      && (forall j :: 0 <= j < |t| && InUse in r[j].flags ==> InUse in t[j].flags)
      && (forall j :: 0 <= j < |t| && j != i ==> (InUse in r[j].flags <==> InUse in t[j].flags))
  {
  }

  /** The table after pm_exit's loop has handled slots 0 .. i - 1. */
  function Reparented(t: seq<MProc>, p: nat, i: nat): (r: seq<MProc>)
    requires i <= |t| && INIT_PROC_NR < |t|
    ensures |r| == |t|
  {
    if i == 0 then t else Disinherit(Reparented(t, p, i - 1), p, i - 1)
  }

  /**
   * After pm_exit's loop the exiting process p (not INIT) has no child in
   * use: every child it had is now INIT's; no other entry's parent
   * changes, and no entry comes into use.
   */
  lemma {:induction false} ReparentedComplete(t: seq<MProc>, p: nat, i: nat)
    requires i <= |t| && INIT_PROC_NR < |t|
    ensures var r := Reparented(t, p, i);
      && (forall j :: 0 <= j < |t| ==>
            r[j].parent == (if j < i && InUse in t[j].flags && t[j].parent == p then INIT_PROC_NR else t[j].parent))
      && (forall j :: 0 <= j < |t| && InUse in r[j].flags ==> InUse in t[j].flags)
      && (forall j :: i <= j < |t| ==> (InUse in r[j].flags <==> InUse in t[j].flags))
      && (p != INIT_PROC_NR ==> forall j :: 0 <= j < i && InUse in r[j].flags ==> r[j].parent != p)
  {
    if i > 0 {
      ReparentedComplete(t, p, i - 1);
      DisinheritStep(Reparented(t, p, i - 1), p, i - 1);
    }
  }

  /** The table after do_waitpid makes who wait for pidArg. */
  function Waits(t: seq<MProc>, who: nat, pidArg: int): seq<MProc>
    requires who < |t|
  {
    t[who := t[who].(flags := t[who].flags + {Waiting}, wpid := pidArg)]
  }

  /** Reporting a stopped child or starting to wait changes no use and no parent. */
  lemma WaitOk(t: seq<MProc>, n: int, who: nat, k: nat, pidArg: int)
    requires ProcTableOk(t, n) && who < |t| && k < |t|
    ensures ProcTableOk(Reported(t, who, k), n) && ProcTableOk(Waits(t, who, pidArg), n)
  {
    var t1 := t[who := t[who].(reply := t[who].reply.(res2 := 0x7F + t[k].sigStatus * 256))];
    SameUse(t, n, who, t1[who]);
    SameUse(t1, n, k, t1[k].(sigStatus := 0));
    SameUse(t, n, who, Waits(t, who, pidArg)[who]);
  }

  class ProcManager {
    /** mproc[], the process table. */
    const mproc: array<MProc>
    /** procs_in_use. */
    var procsInUse: int
    /** The memory allocator (alloc.c). */
    const mem: HoleTable

    constructor (table: array<MProc>, holes: HoleTable)
      ensures mproc == table && mem == holes && procsInUse == InUseCount(table[..])
    {
      mproc, mem := table, holes;
      procsInUse := InUseCount(table[..]);
    }

    /** The table has NR_PROCS entries, procs_in_use counts those in use, and parents are slots. */
    ghost predicate Valid()
      reads this, mproc
    {
      ProcTableOk(mproc[..], procsInUse)
    }

    /**
     * cleanup: wakes c's waiting parent with the status and pid of c and
     * releases c's entry; one entry fewer is in use.
     */
    method Cleanup(c: nat)
      requires Valid() && c < mproc.Length && InUse in mproc[c].flags
      modifies this, mproc
      ensures Valid()
      ensures mproc[..] == CleanedUp(old(mproc[..]), c) && procsInUse == old(procsInUse) - 1
    {
      ghost var t := mproc[..];
      CleanupOk(t, procsInUse, c);
      var pa := mproc[c].parent;
      var status := mproc[c].exitStatus * 256 + mproc[c].sigStatus % 256;
      var pid := mproc[c].pid;
      mproc[pa] := mproc[pa].(reply := mproc[pa].reply.(res2 := status));
      mproc[pa] := SetReply(mproc[pa], pid);
      mproc[pa] := mproc[pa].(flags := mproc[pa].flags - {Waiting});
      mproc[c] := mproc[c].(pid := 0, flags := {}, childUtime := 0, childStime := 0);
      procsInUse := procsInUse - 1;
      assert mproc[..] == CleanedUp(t, c);
    }

    /**
     * do_fork for the caller in slot who.  The free pid the child gets is
     * a parameter; childNr is the slot reported to the kernel and FS, or -1.
     */
    method DoFork(who: nat, newPid: int) returns (r: int, childNr: int)
      requires Valid() && mem.Valid() && who < mproc.Length && InUse in mproc[who].flags && newPid > 0
      modifies this, mproc, mem, mem.hole
      ensures Valid() && mem.Valid()
      ensures r == EAGAIN <==> ForkFull(old(procsInUse), old(mproc[who]))
      ensures r == EAGAIN ==> mem.blocks == old(mem.blocks)
      ensures r != EAGAIN ==> (mem.blocks, ForkBase(old(mem.blocks), old(mproc[who]))) == Allocated(old(mem.blocks), ForkClicks(old(mproc[who])))
      ensures r == ENOMEM <==> r != EAGAIN && ForkBase(old(mem.blocks), old(mproc[who])) == NO_MEM
      ensures r == EAGAIN || r == ENOMEM ==> mproc[..] == old(mproc[..]) && procsInUse == old(procsInUse) && childNr == -1
      ensures r != EAGAIN && r != ENOMEM ==>
        && r == newPid && FirstFree(old(mproc[..]), childNr) && procsInUse == old(procsInUse) + 1
        && mproc[..] == Forked(old(mproc[..]), who, childNr, ForkBase(old(mem.blocks), old(mproc[who])), newPid)
    {
      if procsInUse == NR_PROCS || (procsInUse >= NR_PROCS - LAST_FEW && mproc[who].effUid != 0) {
        return EAGAIN, -1;
      }
      ghost var t, n, b := mproc[..], procsInUse, mem.blocks;
      var pm := mproc[who];
      var progClicks := U32(pm.stack.memLen + U32(pm.stack.memVir - pm.data.memVir));
      assert progClicks == ForkClicks(pm);
      var childBase := mem.AllocMem(progClicks);
      assert mproc[..] == t && procsInUse == n && Valid();
      assert childBase == ForkBase(b, pm);
      if childBase == NO_MEM {
        return ENOMEM, -1;
      }
      childNr := ForkChild(who, childBase, newPid);
      r := newPid;
    }

    /**
     * The table part of do_fork: the child takes the first free slot, a
     * copy of the parent adjusted by Child, and the parent learns its slot.
     */
    method ForkChild(who: nat, base: nat, newPid: int) returns (c: int)
      requires Valid() && who < mproc.Length && InUse in mproc[who].flags && procsInUse < NR_PROCS
      modifies this, mproc
      ensures Valid() && FirstFree(old(mproc[..]), c)
      ensures mproc[..] == Forked(old(mproc[..]), who, c, base, newPid) && procsInUse == old(procsInUse) + 1
    {
      ghost var t := mproc[..];
      FreeSlotExists(t);
      c := 0;
      while c < mproc.Length && InUse in mproc[c].flags
        invariant 0 <= c <= mproc.Length
        invariant forall j :: 0 <= j < c ==> InUse in t[j].flags
        invariant exists k :: c <= k < mproc.Length && InUse !in t[k].flags
      {
        c := c + 1;
      }
      ForkOk(t, procsInUse, who, c, base, newPid);
      procsInUse := procsInUse + 1;
      mproc[c] := Child(mproc[who], who, base, newPid);
      mproc[who] := mproc[who].(reply := mproc[who].reply.(procNr := c));
    }

    /**
     * pm_exit for the process in slot p, called while the process in slot
     * who is being served.  The kernel's times for p, whether another
     * process shares p's text, and the blocks being free-able are inputs.
     * sigchld says whether SIGCHLD goes to the parent; hangup is the process
     * group sent SIGHUP, 0 for none.
     */
    method PmExit(p: nat, who: nat, status: int, utime: int, stime: int, shared: bool)
      returns (sigchld: bool, hangup: int)
      requires Valid() && mem.Valid() && p < mproc.Length && who < mproc.Length && InUse in mproc[p].flags
      requires ExitFreeOk(mem.blocks, mproc[p], shared)
      modifies this, mproc, mem, mem.hole
      ensures Valid() && mem.Valid()
      ensures mem.blocks == ExitFreed(old(mem.blocks), old(mproc[p]), shared)
      ensures var t := old(mproc[..]);
        && mproc[..] == Reparented(Exited(t, p, status, utime, stime), p, NR_PROCS)
        && sigchld == !ParentTakes(t, p)
        && hangup == (if t[p].pid == t[who].procGrp then t[who].procGrp else 0)
    {
      ghost var t := mproc[..];
      var procgrp := if mproc[p].pid == mproc[who].procGrp then mproc[who].procGrp else 0;
      var image := mproc[p];
      AccountedOk(t, procsInUse, p, utime, stime);
      Account(p, utime, stime);
      ghost var a := mproc[..];
      FreeImage(image, shared);
      assert mproc[..] == a;
      sigchld := Release(p, status);
      assert mproc[..] == Exited(t, p, status, utime, stime);
      DisinheritAll(p);
      hangup := procgrp;
    }

    /** do_pm_exit: the exit call for the caller in slot who, which gets no reply. */
    method DoPmExit(who: nat, status: int, utime: int, stime: int, shared: bool) returns (r: int)
      requires Valid() && mem.Valid() && who < mproc.Length && InUse in mproc[who].flags
      requires ExitFreeOk(mem.blocks, mproc[who], shared)
      modifies this, mproc, mem, mem.hole
      ensures Valid() && mem.Valid() && r == SUSPEND
      ensures mem.blocks == ExitFreed(old(mem.blocks), old(mproc[who]), shared)
      ensures mproc[..] == Reparented(Exited(old(mproc[..]), who, status, utime, stime), who, NR_PROCS)
    {
      var sigchld, hangup := PmExit(who, who, status, utime, stime, shared);
      r := SUSPEND;
    }

    /** The accounting step of pm_exit, with the pending reply dropped. */
    method Account(p: nat, utime: int, stime: int)
      requires Valid() && p < mproc.Length && InUse in mproc[p].flags
      modifies mproc
      ensures Valid() && InUse in mproc[p].flags
      ensures mproc[..] == Accounted(old(mproc[..]), p, utime, stime)
    {
      AccountedOk(mproc[..], procsInUse, p, utime, stime);
      var pa := mproc[p].parent;
      var childU, childS := mproc[p].childUtime, mproc[p].childStime;
      mproc[pa] := mproc[pa].(childUtime := mproc[pa].childUtime + utime + childU,
                              childStime := mproc[pa].childStime + stime + childS);
      mproc[p] := mproc[p].(flags := mproc[p].flags - {Reply});
    }

    /**
     * The memory part of pm_exit: the text, unless another process shares
     * it, then the data and stack image.
     */
    method FreeImage(m: MProc, shared: bool)
      requires mem.Valid() && ExitFreeOk(mem.blocks, m, shared)
      modifies mem, mem.hole
      ensures mem.Valid() && mem.blocks == ExitFreed(old(mem.blocks), m, shared)
    {
      ghost var b1 := TextFreed(mem.blocks, m, shared);
      if !shared {
        assert |mem.holes| == |mem.blocks|;
        mem.FreeMem(m.text.memPhys, m.text.memLen);
      }
      assert mem.blocks == b1;
      assert |mem.holes| == |mem.blocks|;
      mem.FreeMem(m.data.memPhys, ImageClicks(m));
    }

    /**
     * The exit status is stored; a waiting parent whose test p meets gets
     * it through cleanup, otherwise p becomes a zombie and the parent is
     * due SIGCHLD.
     */
    method Release(p: nat, status: int) returns (sigchld: bool)
      requires Valid() && p < mproc.Length && InUse in mproc[p].flags
      modifies this, mproc
      ensures Valid() && mproc[..] == Released(old(mproc[..]), p, status)
      ensures sigchld == !ParentTakes(old(mproc[..]), p)
    {
      ghost var t := mproc[..];
      ReleasedOk(t, procsInUse, p, status);
      SameUse(t, procsInUse, p, t[p].(exitStatus := SChar(status)));
      mproc[p] := mproc[p].(exitStatus := SChar(status));
      var pa := mproc[p].parent;
      var pidArg := mproc[pa].wpid;
      var parentWaiting := Waiting in mproc[pa].flags;
      var rightChild := pidArg == -1 || pidArg == mproc[p].pid || -pidArg == mproc[p].procGrp;
      if parentWaiting && rightChild {
        Cleanup(p);
        sigchld := false;
      } else {
        mproc[p] := mproc[p].(flags := {InUse, Zombie});
        sigchld := true;
      }
    }

    /** pm_exit's loop: every child of p goes to INIT, and a zombie child is reaped if INIT waits. */
    method DisinheritAll(p: nat)
      requires Valid()
      modifies this, mproc
      ensures Valid() && mproc[..] == Reparented(old(mproc[..]), p, NR_PROCS)
    {
      ghost var t := mproc[..];
      var i := 0;
      while i < mproc.Length
        invariant 0 <= i <= mproc.Length && Valid()
        invariant mproc[..] == Reparented(t, p, i)
      {
        if InUse in mproc[i].flags && mproc[i].parent == p {
          ToInitOk(mproc[..], procsInUse, i);
          mproc[i] := mproc[i].(parent := INIT_PROC_NR);
          if Waiting in mproc[INIT_PROC_NR].flags && Zombie in mproc[i].flags {
            Cleanup(i);
          }
        }
        i := i + 1;
      }
    }

    /**
     * do_waitpid for the caller in slot who (isWait for WAIT, whose pid
     * and options are -1 and 0).  k is the slot of the child whose state
     * is reported, -1 when there is none.
     */
    method DoWaitpid(who: nat, isWait: bool, pid: int, options: int) returns (r: int, ghost k: int)
      requires Valid() && who < mproc.Length
      modifies this, mproc
      ensures Valid()
      ensures var t := old(mproc[..]);
        var pidArg := PidArg(t[who], isWait, pid);
        && (k == -1 <==> !HasReady(t, who, pidArg))
        && (k != -1 ==> FirstReady(t, who, pidArg, k))
        && (k != -1 && Zombie in t[k].flags ==>
              r == SUSPEND && mproc[..] == CleanedUp(t, k) && procsInUse == old(procsInUse) - 1)
        && (k != -1 && Zombie !in t[k].flags ==>
              r == t[k].pid && mproc[..] == Reported(t, who, k) && procsInUse == old(procsInUse))
        && (k == -1 && HasChild(t, who, pidArg) && NoHang(options, isWait) ==>
              r == 0 && mproc[..] == t && procsInUse == old(procsInUse))
        && (k == -1 && HasChild(t, who, pidArg) && !NoHang(options, isWait) ==>
              r == SUSPEND && mproc[..] == Waits(t, who, pidArg) && procsInUse == old(procsInUse))
        && (!HasChild(t, who, pidArg) ==>
              r == ECHILD && k == -1 && mproc[..] == t && procsInUse == old(procsInUse))
    {
      ghost var t := mproc[..];
      var pidArg := if isWait then -1 else pid;
      var opts := if isWait then 0 else options;
      if pidArg == 0 {
        pidArg := -mproc[who].procGrp;
      }
      var found, children := FindChild(who, pidArg);
      if found >= 0 {
        if Zombie in mproc[found].flags {
          Cleanup(found);
          return SUSPEND, found;
        }
        WaitOk(t, procsInUse, who, found, pidArg);
        var report := 0x7F + mproc[found].sigStatus * 256;
        mproc[who] := mproc[who].(reply := mproc[who].reply.(res2 := report));
        mproc[found] := mproc[found].(sigStatus := 0);
        return mproc[found].pid, found;
      }
      if children > 0 {
        if opts % 2 == 1 {
          return 0, -1;
        }
        WaitOk(t, procsInUse, who, who, pidArg);
        mproc[who] := mproc[who].(flags := mproc[who].flags + {Waiting}, wpid := pidArg);
        return SUSPEND, -1;
      }
      return ECHILD, -1;
    }

    /**
     * do_waitpid's scan: the first child the pid argument selects that has
     * exited or stopped with a signal (-1 if none), and how many selected
     * children the scan met.
     */
    method FindChild(who: nat, pidArg: int) returns (k: int, children: nat)
      requires Valid()
      ensures k == -1 <==> !HasReady(mproc[..], who, pidArg)
      ensures k != -1 ==> FirstReady(mproc[..], who, pidArg, k)
      ensures k == -1 ==> (children > 0 <==> HasChild(mproc[..], who, pidArg))
    {
      children := 0;
      var i := 0;
      while i < mproc.Length
        invariant 0 <= i <= mproc.Length
        invariant forall j :: 0 <= j < i ==> !(Qualifies(mproc[j], who, pidArg) && Ready(mproc[j]))
        invariant (children > 0) == exists j :: 0 <= j < i && Qualifies(mproc[j], who, pidArg)
      {
        if InUse in mproc[i].flags && mproc[i].parent == who {
          if !(pidArg > 0 && pidArg != mproc[i].pid) && !(pidArg < -1 && -pidArg != mproc[i].procGrp) {
            children := children + 1;
            if Zombie in mproc[i].flags || (Stopped in mproc[i].flags && mproc[i].sigStatus != 0) {
              return i, children;
            }
          }
        }
        i := i + 1;
      }
      return -1, children;
    }
  }

  /** The holes after pm_exit frees m's text, unless another process shares it. */
  function TextFreed(b: seq<Extent>, m: MProc, shared: bool): seq<Extent>
  {
    if shared then b else Freed(b, m.text.memPhys, m.text.memLen)
  }

  /** free_mem may take the block: it is allocated and, unless empty, a hole slot is left. */
  predicate CanFree(b: seq<Extent>, base: nat, clicks: nat)
  {
    Returnable(b, base, clicks) && (clicks == 0 || |b| < NR_HOLES)
  }

  /** Whether pm_exit may free m's memory: each block it frees is allocated and a hole slot is left. */
  predicate ExitFreeOk(b: seq<Extent>, m: MProc, shared: bool)
  {
    var ok := (shared || CanFree(b, m.text.memPhys, m.text.memLen))
      && CanFree(TextFreed(b, m, shared), m.data.memPhys, ImageClicks(m));
    ok
  }

  /** The holes after pm_exit frees the text (unless shared) and the data and stack image of m. */
  function ExitFreed(b: seq<Extent>, m: MProc, shared: bool): seq<Extent>
  {
    Freed(TextFreed(b, m, shared), m.data.memPhys, ImageClicks(m))
  }

  /** The pid argument do_waitpid works with: -1 for WAIT, the caller's group for 0. */
  function PidArg(caller: MProc, isWait: bool, pid: int): int
  {
    var a := if isWait then -1 else pid;
    if a == 0 then -caller.procGrp else a
  }

  /** WNOHANG is bit 0 of waitpid's options; WAIT has no options. */
  predicate NoHang(options: int, isWait: bool)
  {
    !isWait && options % 2 == 1
  }

  /** m is a child of slot who that the pid argument selects. */
  predicate Qualifies(m: MProc, who: nat, pidArg: int)
  {
    && InUse in m.flags && m.parent == who
    && (pidArg > 0 ==> pidArg == m.pid)
    && (pidArg < -1 ==> -pidArg == m.procGrp)
  }

  /** A child with something to report: it has exited, or it is stopped by tracing with a signal. */
  predicate Ready(m: MProc)
  {
    Zombie in m.flags || (Stopped in m.flags && m.sigStatus != 0)
  }

  /** Slot who has a child the pid argument selects. */
  predicate HasChild(t: seq<MProc>, who: nat, pidArg: int)
  {
    exists j :: 0 <= j < |t| && Qualifies(t[j], who, pidArg)
  }

  /** Slot who has a selected child with something to report. */
  predicate HasReady(t: seq<MProc>, who: nat, pidArg: int)
  {
    exists j :: 0 <= j < |t| && Qualifies(t[j], who, pidArg) && Ready(t[j])
  }

  /** k is the first selected child with something to report. */
  predicate FirstReady(t: seq<MProc>, who: nat, pidArg: int, k: int)
  {
    && 0 <= k < |t| && Qualifies(t[k], who, pidArg) && Ready(t[k])
    && forall j :: 0 <= j < k ==> !(Qualifies(t[j], who, pidArg) && Ready(t[j]))
  }

  /** The table after do_waitpid reports stopped child k to who: the signal status goes out and is cleared. */
  function Reported(t: seq<MProc>, who: nat, k: nat): seq<MProc>
    requires who < |t| && k < |t|
  {
    var t1 := t[who := t[who].(reply := t[who].reply.(res2 := 0x7F + t[k].sigStatus * 256))];
    t1[k := t1[k].(sigStatus := 0)]
  }

  /**
   * For a positive pid and a non-negative process group, the test pm_exit
   * applies to a waiting parent's saved pid argument selects exactly the
   * children do_waitpid's scan selects for it.
   */
  lemma ExitTestMatchesWaitTest(m: MProc, who: nat, pidArg: int)
    requires pidArg != 0 && m.pid > 0 && m.procGrp >= 0
    requires InUse in m.flags && m.parent == who
    ensures RightChild(pidArg, m) <==> Qualifies(m, who, pidArg)
  {
  }
}
