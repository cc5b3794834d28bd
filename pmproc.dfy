/**
 * The process manager's process table (servers/pm/mproc.h): one `mproc`
 * entry per process with its memory map, ids, wait state, flags and the
 * reply message the main loop sends back.  Only the fields the break,
 * fork, exit and wait calls use are modelled.
 */
module PmProc {
  import opened KConst

  /** One past the largest 32-bit unsigned value. */
  const TWO32: nat := 0x1_0000_0000

  /** An unsigned 32-bit result: the value modulo 2^32. */
  function U32(x: int): (r: nat)
    ensures r < TWO32 && (0 <= x < TWO32 ==> r == x)
  {
    x % TWO32
  }

  /** The `char` fields hold signed 8-bit values: a store truncates to them. */
  function SChar(x: int): (r: int)
    ensures -128 <= r < 128 && (r - x) % 256 == 0
    ensures -128 <= x < 128 ==> r == x
  {
    (x + 128) % 256 - 128
  }

  /** Reply result that tells the main loop not to reply at all. */
  const SUSPEND: int := -998
  /** waitpid option: do not block. */
  const WNOHANG: int := 1
  const SIGHUP: int := 1
  const SIGCHLD: int := 17
  /** Slots kept back for the superuser when the table is almost full. */
  const LAST_FEW: int := 2

  /** The bits of `mp_flags`. */
  datatype Flag =
    | InUse | Waiting | Zombie | Paused | AlarmOn | Separate | Traced
    | Stopped | SigSuspended | Reply | OnSwap | SwapIn | DontSwap | PrivProc

  /** The value of each flag in `mp_flags`. */
  function FlagBit(f: Flag): nat
  {
    match f
    case InUse => 0x001
    case Waiting => 0x002
    case Zombie => 0x004
    case Paused => 0x008
    case AlarmOn => 0x010
    case Separate => 0x020
    case Traced => 0x040
    case Stopped => 0x080
    case SigSuspended => 0x100
    case Reply => 0x200
    case OnSwap => 0x400
    case SwapIn => 0x800
    case DontSwap => 0x1000
    case PrivProc => 0x2000
  }

  /** 2 to the power k. */
  function Pow2(k: nat): (r: nat)
    ensures r >= 1
  {
    if k == 0 then 1 else 2 * Pow2(k - 1)
  }

  /** The bit position of each flag. */
  function FlagShift(f: Flag): nat
  {
    match f
    case InUse => 0
    case Waiting => 1
    case Zombie => 2
    case Paused => 3
    case AlarmOn => 4
    case Separate => 5
    case Traced => 6
    case Stopped => 7
    case SigSuspended => 8
    case Reply => 9
    case OnSwap => 10
    case SwapIn => 11
    case DontSwap => 12
    case PrivProc => 13
  }

  /**
   * Every flag is a single bit and no two flags share one, so `mp_flags`
   * is faithfully a set of flags: `&` of a mask is intersection, `|` union
   * and `& ~` difference.
   */
  lemma FlagsAreDistinctBits()
    ensures forall f :: FlagBit(f) == Pow2(FlagShift(f))
    ensures forall f, g :: f != g ==> FlagShift(f) != FlagShift(g)
  {
    assert Pow2(0) == 1 && Pow2(1) == 2 && Pow2(2) == 4 && Pow2(3) == 8;
    assert Pow2(4) == 16 && Pow2(5) == 32 && Pow2(6) == 64 && Pow2(7) == 128;
    assert Pow2(8) == 256 && Pow2(9) == 512 && Pow2(10) == 1024;
    assert Pow2(11) == 2048 && Pow2(12) == 4096 && Pow2(13) == 8192;
  }

  /** The flags a child inherits from its parent at fork. */
  const INHERITED: set<Flag> := {InUse, Separate, PrivProc, DontSwap}

  /**
   * The fields of `mp_reply` this model uses: `reply_res` (the call's
   * result), `reply_res2` (the wait status), `procnr` (the child's slot
   * after fork) and `reply_ptr` (the new break).
   */
  datatype ReplyMsg = ReplyMsg(res: int, res2: int, procNr: int, ptr: int)

  /** One `mproc` entry. */
  datatype MProc = MProc(
    text: MemMap, data: MemMap, stack: MemMap,
    exitStatus: int, sigStatus: int,
    pid: int, procGrp: int, wpid: int, parent: int,
    childUtime: int, childStime: int,
    effUid: int,
    flags: set<Flag>,
    reply: ReplyMsg)

  /**
   * setreply (servers/pm/main.c, which is not part of this model): record
   * the result for the main loop to send and mark a reply pending.
   */
  function SetReply(m: MProc, result: int): MProc
  {
    m.(reply := m.reply.(res := result), flags := m.flags + {Reply})
  }

  /** The number of entries of a table that are in use. */
  function InUseCount(t: seq<MProc>): (n: nat)
    ensures n <= |t|
  {
    if |t| == 0 then 0
    else InUseCount(t[..|t| - 1]) + (if InUse in t[|t| - 1].flags then 1 else 0)
  }

  /** Changing one entry changes the count only by whether it is in use. */
  lemma {:induction false} InUseCountUpdate(t: seq<MProc>, i: nat, m: MProc)
    requires i < |t|
    ensures InUseCount(t[i := m]) + (if InUse in t[i].flags then 1 else 0)
         == InUseCount(t) + (if InUse in m.flags then 1 else 0)
    decreases |t|
  {
    var t' := t[i := m];
    if i < |t| - 1 {
      assert t'[..|t| - 1] == t[..|t| - 1][i := m];
      InUseCountUpdate(t[..|t| - 1], i, m);
    } else {
      assert t'[..|t| - 1] == t[..|t| - 1];
    }
  }

  /** When fewer entries are in use than there are, one is free. */
  lemma {:induction false} FreeSlotExists(t: seq<MProc>)
    requires InUseCount(t) < |t|
    ensures exists i :: 0 <= i < |t| && InUse !in t[i].flags
    decreases |t|
  {
    var k := |t| - 1;
    if InUse !in t[k].flags {
      assert 0 <= k < |t| && InUse !in t[k].flags;
    } else {
      FreeSlotExists(t[..k]);
      var i :| 0 <= i < k && InUse !in t[..k][i].flags;
      assert InUse !in t[i].flags;
    }
  }
}
