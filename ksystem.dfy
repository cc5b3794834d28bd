/**
 * The system task's own bookkeeping (kernel/system.c): the dispatch
 * checks of sys_task, the call vector that initialize fills, the
 * privilege-record allocation get_priv, and the entropy buffers that
 * get_randomness fills.
 */
module KSystem {
  import opened KConst
  import opened KState
  import opened KIpc
  import opened KProc

  // ---------------------------------------------------------------------
  // The call vector (initialize)

  /** The handler functions of the kernel calls, and do_unused. */
  datatype Handler =
    | DoUnused
    | DoFork | DoExec | DoExit | DoNice | DoPrivctl | DoTrace
    | DoKill | DoGetksig | DoEndksig | DoSigsend | DoSigreturn
    | DoNewmap | DoSegctl | DoMemset
    | DoUmap | DoVircopy | DoPhyscopy | DoVirvcopy | DoPhysvcopy
    | DoIrqctl | DoInt86 | DoDevio | DoSdevio | DoVdevio
    | DoSetalarm | DoTimes | DoGetinfo | DoAbort

  /** The call number (relative to KERNEL_CALL) that initialize maps to each handler; -1 for do_unused. */
  function CallOf(h: Handler): int
  {
    match h
    case DoUnused => -1
    case DoFork => SYS_FORK
    case DoExec => SYS_EXEC
    case DoExit => SYS_EXIT
    case DoNice => SYS_NICE
    case DoPrivctl => SYS_PRIVCTL
    case DoTrace => SYS_TRACE
    case DoKill => SYS_KILL
    case DoGetksig => SYS_GETKSIG
    case DoEndksig => SYS_ENDKSIG
    case DoSigsend => SYS_SIGSEND
    case DoSigreturn => SYS_SIGRETURN
    case DoNewmap => SYS_NEWMAP
    case DoSegctl => SYS_SEGCTL
    case DoMemset => SYS_MEMSET
    case DoUmap => SYS_UMAP
    case DoVircopy => SYS_VIRCOPY
    case DoPhyscopy => SYS_PHYSCOPY
    case DoVirvcopy => SYS_VIRVCOPY
    case DoPhysvcopy => SYS_PHYSVCOPY
    case DoIrqctl => SYS_IRQCTL
    case DoInt86 => SYS_INT86
    case DoDevio => SYS_DEVIO
    case DoSdevio => SYS_SDEVIO
    case DoVdevio => SYS_VDEVIO
    case DoSetalarm => SYS_SETALARM
    case DoTimes => SYS_TIMES
    case DoGetinfo => SYS_GETINFO
    case DoAbort => SYS_ABORT
  }

  /**
   * map()'s compile-time check: every mapped call number is a valid index
   * of call_vec, and no two handlers share a number.
   */
  lemma MappedCallsFit(h: Handler, h': Handler)
    ensures h != DoUnused ==> 0 <= CallOf(h) < NR_SYS_CALLS
    ensures h != DoUnused && h' != DoUnused && CallOf(h) == CallOf(h') ==> h == h'
  {
  }

  /** The system task's call vector call_vec. */
  class SystemTask {
    const callVec: array<Handler>

    constructor ()
      ensures callVec.Length == NR_SYS_CALLS && fresh(callVec)
    {
      callVec := new Handler[NR_SYS_CALLS](_ => DoUnused);
    }

    /**
     * initialize's call-vector part: every entry is first do_unused, then
     * each known call is mapped.  Afterwards entry i holds the handler of
     * call i, and every handler sits at its own number, so do_unused is
     * left nowhere.
     */
    method Initialize()
      requires callVec.Length == NR_SYS_CALLS
      modifies callVec
      ensures forall i :: 0 <= i < NR_SYS_CALLS ==> callVec[i] != DoUnused && CallOf(callVec[i]) == i
      ensures forall h :: h != DoUnused ==> callVec[CallOf(h)] == h
    {
      var i := 0;
      while i < NR_SYS_CALLS
        invariant 0 <= i <= NR_SYS_CALLS
        invariant forall j :: 0 <= j < i ==> callVec[j] == DoUnused
      {
        callVec[i] := DoUnused;
        i := i + 1;
      }
      MapProcessManagement();
      MapSignalHandling();
      MapDeviceIo();
      MapMemoryManagement();
      MapCopying();
      MapClock();
      MapSystemControl();
      forall h | h != DoUnused
        ensures callVec[CallOf(h)] == h
      {
        MappedCallsFit(h, callVec[CallOf(h)]);
      }
    }

    /** The process management calls: entries SYS_FORK to SYS_TRACE get their handlers, the others are unchanged. */
    method MapProcessManagement()
      requires callVec.Length == NR_SYS_CALLS
      modifies callVec
      ensures forall j :: 0 <= j < NR_SYS_CALLS ==>
        if SYS_FORK <= j < SYS_TRACE + 1 then callVec[j] != DoUnused && CallOf(callVec[j]) == j else callVec[j] == old(callVec[j])
    {
      callVec[SYS_FORK] := DoFork;
      callVec[SYS_EXEC] := DoExec;
      callVec[SYS_EXIT] := DoExit;
      callVec[SYS_NICE] := DoNice;
      callVec[SYS_PRIVCTL] := DoPrivctl;
      callVec[SYS_TRACE] := DoTrace;
    }

    /** The signal handling calls: entries SYS_KILL to SYS_SIGRETURN get their handlers, the others are unchanged. */
    method MapSignalHandling()
      requires callVec.Length == NR_SYS_CALLS
      modifies callVec
      ensures forall j :: 0 <= j < NR_SYS_CALLS ==>
        if SYS_KILL <= j < SYS_SIGRETURN + 1 then callVec[j] != DoUnused && CallOf(callVec[j]) == j else callVec[j] == old(callVec[j])
    {
      callVec[SYS_KILL] := DoKill;
      callVec[SYS_GETKSIG] := DoGetksig;
      callVec[SYS_ENDKSIG] := DoEndksig;
      callVec[SYS_SIGSEND] := DoSigsend;
      callVec[SYS_SIGRETURN] := DoSigreturn;
    }

    /** The device I/O calls: entries SYS_IRQCTL to SYS_VDEVIO get their handlers, the others are unchanged. */
    method MapDeviceIo()
      requires callVec.Length == NR_SYS_CALLS
      modifies callVec
      ensures forall j :: 0 <= j < NR_SYS_CALLS ==>
        if SYS_IRQCTL <= j < SYS_VDEVIO + 1 then callVec[j] != DoUnused && CallOf(callVec[j]) == j else callVec[j] == old(callVec[j])
    {
      callVec[SYS_IRQCTL] := DoIrqctl;
      callVec[SYS_DEVIO] := DoDevio;
      callVec[SYS_SDEVIO] := DoSdevio;
      callVec[SYS_VDEVIO] := DoVdevio;
      callVec[SYS_INT86] := DoInt86;
    }

    /** The memory management calls: entries SYS_NEWMAP to SYS_MEMSET get their handlers, the others are unchanged. */
    method MapMemoryManagement()
      requires callVec.Length == NR_SYS_CALLS
      modifies callVec
      ensures forall j :: 0 <= j < NR_SYS_CALLS ==>
        if SYS_NEWMAP <= j < SYS_MEMSET + 1 then callVec[j] != DoUnused && CallOf(callVec[j]) == j else callVec[j] == old(callVec[j])
    {
      callVec[SYS_NEWMAP] := DoNewmap;
      callVec[SYS_SEGCTL] := DoSegctl;
      callVec[SYS_MEMSET] := DoMemset;
    }

    /** The copying calls: entries SYS_UMAP to SYS_PHYSVCOPY get their handlers, the others are unchanged. */
    method MapCopying()
      requires callVec.Length == NR_SYS_CALLS
      modifies callVec
      ensures forall j :: 0 <= j < NR_SYS_CALLS ==>
        if SYS_UMAP <= j < SYS_PHYSVCOPY + 1 then callVec[j] != DoUnused && CallOf(callVec[j]) == j else callVec[j] == old(callVec[j])
    {
      callVec[SYS_UMAP] := DoUmap;
      callVec[SYS_VIRCOPY] := DoVircopy;
      callVec[SYS_PHYSCOPY] := DoPhyscopy;
      callVec[SYS_VIRVCOPY] := DoVirvcopy;
      callVec[SYS_PHYSVCOPY] := DoPhysvcopy;
    }

    /** The clock functionality calls: entries SYS_SETALARM to SYS_TIMES get their handlers, the others are unchanged. */
    method MapClock()
      requires callVec.Length == NR_SYS_CALLS
      modifies callVec
      ensures forall j :: 0 <= j < NR_SYS_CALLS ==>
        if SYS_SETALARM <= j < SYS_TIMES + 1 then callVec[j] != DoUnused && CallOf(callVec[j]) == j else callVec[j] == old(callVec[j])
    {
      callVec[SYS_TIMES] := DoTimes;
      callVec[SYS_SETALARM] := DoSetalarm;
    }

    /** The system control calls: entries SYS_GETINFO to SYS_ABORT get their handlers, the others are unchanged. */
    method MapSystemControl()
      requires callVec.Length == NR_SYS_CALLS
      modifies callVec
      ensures forall j :: 0 <= j < NR_SYS_CALLS ==>
        if SYS_GETINFO <= j < SYS_ABORT + 1 then callVec[j] != DoUnused && CallOf(callVec[j]) == j else callVec[j] == old(callVec[j])
    {
      callVec[SYS_ABORT] := DoAbort;
      callVec[SYS_GETINFO] := DoGetinfo;
    }
  }

  // ---------------------------------------------------------------------
  // sys_task's dispatch

  const TWO32: int := 0x1_0000_0000

  /** call_nr: the message type minus KERNEL_CALL, as an unsigned int. */
  function CallNr(mType: int32): nat
  {
    (mType - KERNEL_CALL) % TWO32
  }

  /** How sys_task treats a request. */
  datatype Dispatch = Denied | BadRequest | Run(h: Handler)

  /**
   * The checks of sys_task, in their order: the caller's s_call_mask must
   * hold bit call_nr (the i386 shift instruction takes the count modulo
   * 32), then call_nr must be below NR_SYS_CALLS; only then does the
   * call-vector entry run.
   */
  function SysTaskDispatch(callMask: set<int>, mType: int32, callVec: seq<Handler>): Dispatch
    requires |callVec| == NR_SYS_CALLS
  {
    var c := CallNr(mType);
    if c % 32 !in callMask then Denied
    else if c >= NR_SYS_CALLS then BadRequest
    else Run(callVec[c])
  }

  /** The reply code: ECALLDENIED, EBADREQUEST, or what the handler returned. */
  function DispatchResult(d: Dispatch, handled: int): int
  {
    match d
    case Denied => ECALLDENIED
    case BadRequest => EBADREQUEST
    case Run(_) => handled
  }

  /** sys_task replies unless the handler said EDONTREPLY. */
  predicate Replies(result: int)
  {
    result != EDONTREPLY
  }

  /**
   * A handler runs exactly for a kernel call the caller's mask grants,
   * and it is the handler initialize mapped to that call.  A permitted
   * number past the calls (or a message type below KERNEL_CALL, whose
   * difference wraps) is refused with EBADREQUEST, never run; denials and
   * refusals are always answered.
   */
  lemma DispatchChecks(callMask: set<int>, mType: int32, callVec: seq<Handler>)
    requires |callVec| == NR_SYS_CALLS
    requires forall i :: 0 <= i < NR_SYS_CALLS ==> CallOf(callVec[i]) == i
    ensures var c := CallNr(mType); var d := SysTaskDispatch(callMask, mType, callVec);
      && (d.Run? <==> c < NR_SYS_CALLS && c in callMask)
      && (d.Run? ==> CallOf(d.h) == c && c == mType - KERNEL_CALL)
      && (d == BadRequest <==> c >= NR_SYS_CALLS && c % 32 in callMask)
      && (mType < KERNEL_CALL ==> !d.Run?)
      && (!d.Run? ==> Replies(DispatchResult(d, EDONTREPLY)))
  {
    var c := CallNr(mType);
    if c < NR_SYS_CALLS {
      assert c % 32 == c;
    }
  }

  // ---------------------------------------------------------------------
  // get_priv

  /** A privilege record get_priv may hand to a new system process. */
  predicate Unbound(v: Priv)
  {
    v.procNr == NONE && v.id != USER_PRIV_ID
  }

  /** The first unbound record at index i or later. */
  function FreePrivFrom(privs: seq<Priv>, i: nat): (r: Option<nat>)
    decreases |privs| - i
    ensures r.Some? ==> i <= r.value < |privs| && Unbound(privs[r.value])
    ensures r.Some? ==> forall j :: i <= j < r.value ==> !Unbound(privs[j])
    ensures r.None? ==> forall j :: i <= j < |privs| ==> !Unbound(privs[j])
  {
    if i >= |privs| then None
    else if Unbound(privs[i]) then Some(i)
    else FreePrivFrom(privs, i + 1)
  }

  /**
   * The record get_priv binds for a system process as written: the search
   * loop stops at the first unbound record or at END_PRIV_ADDR, and the
   * ENOSPC test then reads s_proc_nr there, which for a full table is the
   * word `past` just beyond priv[].  None means ENOSPC.
   */
  function GetPrivIndexAsWritten(privs: seq<Priv>, past: int): Option<nat>
  {
    match FreePrivFrom(privs, 0)
    case Some(i) => Some(i)
    case None => if past != NONE then None else Some(|privs|)
  }

  /**
   * When every record is bound and the word after priv[] happens to hold
   * NONE, the code as written passes the ENOSPC test and binds a record
   * one past the end of the table.
   */
  lemma GetPrivOverrun(privs: seq<Priv>)
    requires forall j :: 0 <= j < |privs| ==> !Unbound(privs[j])
    ensures GetPrivIndexAsWritten(privs, NONE) == Some(|privs|)
  {
  }

  /**
   * get_priv: a system process gets the first unbound record, which now
   * names it and has flags SYS_PROC, or ENOSPC when there is none (no
   * change); a user process gets the shared record USER_PRIV_ID, which
   * names INIT and has no flags.
   */
  method GetPriv(k: Kernel, x: nat, sysProc: bool) returns (r: int)
    requires k.Valid() && x < NR_SLOTS
    modifies k.proc, k.priv
    ensures k.Valid()
    ensures sysProc ==> match FreePrivFrom(old(k.priv[..]), 0)
      case None => r == ENOSPC && k.proc[..] == old(k.proc[..]) && k.priv[..] == old(k.priv[..])
      case Some(i) =>
        && r == OK && k.proc[..] == old(k.proc[..])[x := old(k.proc[x]).(privId := i)]
        && k.priv[..] == old(k.priv[..])[i := old(k.priv[i]).(procNr := old(k.proc[x].nr), flags := {SysProc})]
    ensures !sysProc ==>
      && r == OK && k.proc[..] == old(k.proc[..])[x := old(k.proc[x]).(privId := USER_PRIV_ID)]
      && k.priv[..] == old(k.priv[..])[USER_PRIV_ID := old(k.priv[USER_PRIV_ID]).(procNr := INIT_PROC_NR, flags := {})]
  {
    var i := USER_PRIV_ID;
    if sysProc {
      var found := FindFreePriv(k);
      if found.None? {
        return ENOSPC;
      }
      i := found.value;
    }
    var v := k.priv[i].(procNr := if sysProc then k.proc[x].nr else INIT_PROC_NR, flags := if sysProc then {SysProc} else {});
    BindPriv(k, x, i, v);
    r := OK;
  }

  /** get_priv's search loop over the privilege table. */
  method FindFreePriv(k: Kernel) returns (found: Option<nat>)
    requires k.priv.Length == NR_SYS_PROCS
    ensures found == FreePrivFrom(k.priv[..], 0)
  {
    var i := 0;
    while i < NR_SYS_PROCS
      invariant 0 <= i <= NR_SYS_PROCS
      invariant FreePrivFrom(k.priv[..], 0) == FreePrivFrom(k.priv[..], i)
    {
      if Unbound(k.priv[i]) {
        return Some(i);
      }
      i := i + 1;
    }
    return None;
  }

  /** Record i becomes v (same s_id and far memory) and slot x points at it. */
  method BindPriv(k: Kernel, x: nat, i: nat, v: Priv)
    requires k.Valid() && x < NR_SLOTS && i < NR_SYS_PROCS
    requires v.id == k.priv[i].id && v.farmem == k.priv[i].farmem && v.notifyPending == k.priv[i].notifyPending
    modifies k.proc, k.priv
    ensures k.Valid()
    ensures k.proc[..] == old(k.proc[..])[x := old(k.proc[x]).(privId := i)]
    ensures k.priv[..] == old(k.priv[..])[i := v]
  {
    assert PrivOk(k.priv[i], i);
    PrivUpdateInv(k.Snap(), k.G(), None, i, v);
    k.priv[i] := v;
    assert SlotOk(k.proc[x], x);
    var p := k.proc[x].(privId := i);
    assert SlotOk(p, x);
    k.SetFields(x, p);
  }

  // ---------------------------------------------------------------------
  // get_randomness

  const RANDOM_SOURCES: int := 16
  const RANDOM_ELEMENTS: int := 32

  /** One bin of struct randomness: the next index to write, the number of samples held, the ring of samples. */
  datatype RBin = RBin(next: int, size: int, buf: seq<bv16>)

  predicate BinOk(b: RBin)
  {
    0 <= b.next < RANDOM_ELEMENTS && 0 <= b.size <= RANDOM_ELEMENTS && |b.buf| == RANDOM_ELEMENTS
  }

  /** The sample stored in an unsigned short: its low 16 bits. */
  function Low16(sample: bv32): bv16
  {
    (sample & 0xFFFF) as bv16
  }

  /** A bin after one sample: it is written at r_next, r_next moves on round the ring, r_size grows up to RANDOM_ELEMENTS. */
  function Sampled(b: RBin, sample: bv32): (b': RBin)
    requires BinOk(b)
    ensures BinOk(b')
  {
    RBin((b.next + 1) % RANDOM_ELEMENTS,
         if b.size < RANDOM_ELEMENTS then b.size + 1 else b.size,
         b.buf[b.next := Low16(sample)])
  }

  /** A bin after a run of samples, oldest first. */
  function SampledAll(b: RBin, samples: seq<bv32>): (b': RBin)
    requires BinOk(b)
    ensures BinOk(b')
    decreases |samples|
  {
    if |samples| == 0 then b else Sampled(SampledAll(b, samples[..|samples| - 1]), samples[|samples| - 1])
  }

  /** A run of samples one longer is the shorter run followed by one more sample. */
  lemma SampledAllStep(b: RBin, samples: seq<bv32>, i: nat)
    requires BinOk(b) && i < |samples|
    ensures SampledAll(b, samples[..i + 1]) == Sampled(SampledAll(b, samples[..i]), samples[i])
  {
    assert samples[..i + 1][..i] == samples[..i];
  }

  /** The ring position k places before r_next (k = 0: the newest sample). */
  function Back(next: int, k: int): int
    requires 0 <= next < RANDOM_ELEMENTS && 0 <= k < RANDOM_ELEMENTS
  {
    (next + RANDOM_ELEMENTS - 1 - k) % RANDOM_ELEMENTS
  }

  /** One sample moves every older sample one place further back from r_next. */
  lemma SampledShifts(b: RBin, sample: bv32, k: int)
    requires BinOk(b) && 0 <= k < RANDOM_ELEMENTS
    ensures var b' := Sampled(b, sample);
      && (k == 0 ==> b'.buf[Back(b'.next, k)] == Low16(sample))
      && (k > 0 ==> b'.buf[Back(b'.next, k)] == b.buf[Back(b.next, k - 1)])
  {
    var n' := (b.next + 1) % RANDOM_ELEMENTS;
    if b.next + 1 < RANDOM_ELEMENTS {
      assert n' == b.next + 1;
    } else {
      assert n' == 0;
    }
  }

  lemma NextAdvances(n: int, m: nat)
    requires 0 <= n < RANDOM_ELEMENTS
    ensures ((n + m) % RANDOM_ELEMENTS + 1) % RANDOM_ELEMENTS == (n + m + 1) % RANDOM_ELEMENTS
  {
    var q := (n + m) / RANDOM_ELEMENTS;
    var r := (n + m) % RANDOM_ELEMENTS;
    assert n + m + 1 == q * RANDOM_ELEMENTS + (r + 1);
    if r + 1 < RANDOM_ELEMENTS {
      assert (n + m + 1) % RANDOM_ELEMENTS == r + 1;
    } else {
      assert n + m + 1 == (q + 1) * RANDOM_ELEMENTS;
    }
  }

  /**
   * The ring keeps the latest samples: after a run of samples, r_size
   * counts them up to RANDOM_ELEMENTS, r_next has moved on by their
   * number, and the k-th newest sample, for k below both, sits k places
   * before r_next.
   */
  lemma {:induction false} RingHoldsLatest(b: RBin, samples: seq<bv32>)
    requires BinOk(b)
    ensures var b' := SampledAll(b, samples);
      && b'.size == (if b.size + |samples| < RANDOM_ELEMENTS then b.size + |samples| else RANDOM_ELEMENTS)
      && b'.next == (b.next + |samples|) % RANDOM_ELEMENTS
      && forall k :: 0 <= k < |samples| && k < RANDOM_ELEMENTS ==>
           b'.buf[Back(b'.next, k)] == Low16(samples[|samples| - 1 - k])
    decreases |samples|
  {
    if |samples| > 0 {
      var init := samples[..|samples| - 1];
      var s := samples[|samples| - 1];
      RingHoldsLatest(b, init);
      var b0 := SampledAll(b, init);
      var b' := Sampled(b0, s);
      assert b' == SampledAll(b, samples);
      NextAdvances(b.next, |init|);
      forall k | 0 <= k < |samples| && k < RANDOM_ELEMENTS
        ensures b'.buf[Back(b'.next, k)] == Low16(samples[|samples| - 1 - k])
      {
        SampledShifts(b0, s, k);
        if k > 0 {
          assert samples[|samples| - 1 - k] == init[|init| - 1 - (k - 1)];
        }
      }
    }
  }

  /** krandom: one bin per entropy source. */
  class Randomness {
    const bin: array<RBin>

    ghost predicate Valid()
      reads bin
    {
      bin.Length == RANDOM_SOURCES && forall i :: 0 <= i < RANDOM_SOURCES ==> BinOk(bin[i])
    }

    /**
     * get_randomness: the source is reduced modulo RANDOM_SOURCES and the
     * sample (the low word of the cycle counter, or the clock counter on
     * older processors) enters that bin.
     */
    method GetRandomness(source: int, sample: bv32)
      requires Valid() && source >= 0
      modifies bin
      ensures Valid()
      ensures var s := source % RANDOM_SOURCES; bin[..] == old(bin[..])[s := Sampled(old(bin[s]), sample)]
    {
      var s := source % RANDOM_SOURCES;
      var b := bin[s];
      var rNext := b.next;
      var buf := b.buf[rNext := Low16(sample)];
      var size := b.size;
      if size < RANDOM_ELEMENTS {
        size := size + 1;
      }
      bin[s] := RBin((rNext + 1) % RANDOM_ELEMENTS, size, buf);
    }
  }
}
