/**
 * The process manager's break handling (servers/pm/break.c).  A process's
 * data segment grows upward and its stack downward into the gap between
 * them; `adjust` moves the data end and the stack base within the gap and
 * refuses when they would meet, restoring anything it changed.  Memory is
 * never allocated or freed here.
 *
 * `vir_clicks` and `phys_clicks` are 32-bit unsigned; the sums the source
 * computes in them are written with `U32`.
 */
module PmBreak {
  import opened KConst
  import opened PmProc

  /** SAFETY_BYTES: room for 384 pointers of 4 bytes. */
  const SAFETY_BYTES: nat := 384 * 4
  /** SAFETY_CLICKS: SAFETY_BYTES rounded up to whole clicks. */
  const SAFETY_CLICKS: nat := (SAFETY_BYTES + CLICK_SIZE - 1) / CLICK_SIZE

  /** The number of clicks in the 32-bit virtual address space. */
  const VIR_CLICKS: nat := TWO32 / CLICK_SIZE

  /**
   * The data and stack segments of an entry lie in the 32-bit virtual
   * address space and the stack's physical click is a `phys_clicks`.
   */
  predicate MapsOk(m: MProc)
  {
    && m.data.memVir + m.data.memLen <= VIR_CLICKS
    && m.stack.memVir + m.stack.memLen <= VIR_CLICKS
    && m.stack.memPhys < TWO32
  }

  /** The click holding the stack pointer. */
  function SpClick(sp: nat): nat
  {
    sp / CLICK_SIZE
  }

  /** `lower`: the lower of the stack pointer's click and the stack base. */
  function Lower(m: MProc, sp: nat): nat
  {
    if m.stack.memVir > SpClick(sp) then SpClick(sp) else m.stack.memVir
  }

  /** `gap_base`: the click the gap must not go below, in `vir_clicks`. */
  function GapBase(m: MProc, dataClicks: nat): nat
  {
    U32(m.data.memVir + dataClicks + SAFETY_CLICKS)
  }

  /**
   * The entry with the data segment `dataClicks` long and the stack
   * extended down to the stack pointer's click when the pointer lies below
   * the stack base; the stack's physical base moves with its virtual base.
   */
  function Proposed(m: MProc, dataClicks: nat, sp: nat): MProc
  {
    var s := m.stack;
    var delta := s.memVir - SpClick(sp);
    m.(data := m.data.(memLen := dataClicks),
       stack := if delta > 0 then MemMap(SpClick(sp), U32(s.memPhys - delta), s.memLen + delta) else s)
  }

  /**
   * The tests of adjust: an empty stack is accepted as it is; otherwise the
   * stack pointer must lie below the stack top, the gap must keep the
   * safety margin, and the new data end must not pass the new stack base.
   */
  predicate Accepts(m: MProc, dataClicks: nat, sp: nat)
  {
    m.stack.memLen == 0 ||
    (&& SpClick(sp) < m.stack.memVir + m.stack.memLen
     && Lower(m, sp) >= GapBase(m, dataClicks)
     && U32(m.data.memVir + dataClicks) <= Lower(m, sp))
  }

  /** The entry after adjust: the proposal when it is accepted, else the entry unchanged. */
  function Adjusted(m: MProc, dataClicks: nat, sp: nat): MProc
  {
    if m.stack.memLen != 0 && Accepts(m, dataClicks, sp) then Proposed(m, dataClicks, sp) else m
  }

  /** Taking delta off a 32-bit value and adding it back restores the value. */
  lemma U32SubAdd(x: nat, delta: int)
    requires x < TWO32
    ensures U32(U32(x - delta) + delta) == x
  {
    var y := x - delta;
    assert U32(y) == y - (y / TWO32) * TWO32;
    assert U32(y) + delta == x - (y / TWO32) * TWO32;
  }

  /**
   * adjust: works on entry p in place as the source does (data length, then
   * stack base, then the final test, then the restore) and reports whether
   * sys_newmap is called.
   */
  method Adjust(mp: array<MProc>, p: nat, dataClicks: nat, sp: nat) returns (r: int, newmap: bool)
    requires p < mp.Length && MapsOk(mp[p]) && dataClicks < TWO32
    modifies mp
    ensures r == (if Accepts(old(mp[p]), dataClicks, sp) then OK else ENOMEM)
    ensures mp[..] == old(mp[..])[p := Adjusted(old(mp[p]), dataClicks, sp)]
    ensures r == ENOMEM ==> mp[..] == old(mp[..])
    ensures newmap <==> mp[p] != old(mp[p])
  {
    ghost var m := mp[p];
    if mp[p].stack.memLen == 0 {
      return OK, false;
    }
    var baseOfStack := mp[p].stack.memVir + mp[p].stack.memLen;
    var spClick := sp / CLICK_SIZE;
    if spClick >= baseOfStack {
      return ENOMEM, false;
    }
    var delta := mp[p].stack.memVir - spClick;
    var lower := if delta > 0 then spClick else mp[p].stack.memVir;
    var gapBase := U32(mp[p].data.memVir + dataClicks + SAFETY_CLICKS);
    if lower < gapBase {
      return ENOMEM, false;
    }
    var oldClicks := mp[p].data.memLen;
    var dataChanged, stackChanged := false, false;
    if dataClicks != oldClicks {
      mp[p] := mp[p].(data := mp[p].data.(memLen := dataClicks));
      dataChanged := true;
    }
    if delta > 0 {
      var s := mp[p].stack;
      mp[p] := mp[p].(stack := MemMap(s.memVir - delta, U32(s.memPhys - delta), s.memLen + delta));
      stackChanged := true;
    }
    assert mp[p] == Proposed(m, dataClicks, sp);
    if U32(mp[p].data.memVir + mp[p].data.memLen) <= mp[p].stack.memVir {
      return OK, dataChanged || stackChanged;
    }
    if dataChanged {
      mp[p] := mp[p].(data := mp[p].data.(memLen := oldClicks));
    }
    if stackChanged {
      var s := mp[p].stack;
      U32SubAdd(m.stack.memPhys, delta);
      mp[p] := mp[p].(stack := MemMap(s.memVir + delta, U32(s.memPhys + delta), s.memLen - delta));
    }
    assert mp[p] == m;
    return ENOMEM, false;
  }

  /**
   * After an accepted adjustment of a non-empty stack, the data segment has
   * the asked length, the data end plus the safety margin stays below the
   * stack base, the stack pointer lies in the stack, the stack top and the
   * stack's virtual-to-physical offset are as before, and the map still
   * lies in the address space.
   */
  lemma AdjustKeepsApart(m: MProc, dataClicks: nat, sp: nat)
    requires MapsOk(m) && m.stack.memLen != 0 && Accepts(m, dataClicks, sp)
    requires m.data.memVir + dataClicks + SAFETY_CLICKS < TWO32
    ensures var n := Adjusted(m, dataClicks, sp);
      && n.text == m.text && n.data.memVir == m.data.memVir && n.data.memPhys == m.data.memPhys
      && n.data.memLen == dataClicks
      && n.data.memVir + n.data.memLen + SAFETY_CLICKS <= n.stack.memVir
      && n.stack.memVir <= SpClick(sp) < n.stack.memVir + n.stack.memLen
      && n.stack.memVir + n.stack.memLen == m.stack.memVir + m.stack.memLen
      && U32(n.stack.memPhys - n.stack.memVir) == U32(m.stack.memPhys - m.stack.memVir)
      && MapsOk(n)
  {
    var n := Adjusted(m, dataClicks, sp);
    var delta := m.stack.memVir - SpClick(sp);
    if delta > 0 {
      var y := m.stack.memPhys - delta;
      assert n.stack.memPhys == y - (y / TWO32) * TWO32;
      assert n.stack.memPhys - n.stack.memVir == (m.stack.memPhys - m.stack.memVir) - (y / TWO32) * TWO32;
    }
  }

  /**
   * When the sum for the gap base does not wrap, the final test of adjust
   * never fails: the outcome is decided by the stack-pointer test and the
   * gap test alone.
   */
  lemma FinalTestRedundant(m: MProc, dataClicks: nat, sp: nat)
    requires m.data.memVir + dataClicks + SAFETY_CLICKS < TWO32
    ensures Accepts(m, dataClicks, sp) <==>
      m.stack.memLen == 0 ||
      (SpClick(sp) < m.stack.memVir + m.stack.memLen
       && m.data.memVir + dataClicks + SAFETY_CLICKS <= Lower(m, sp))
  {
  }

  /** Adjusting twice to the same data length and stack pointer changes nothing more. */
  lemma AdjustIdempotent(m: MProc, dataClicks: nat, sp: nat)
    ensures Adjusted(Adjusted(m, dataClicks, sp), dataClicks, sp) == Adjusted(m, dataClicks, sp)
  {
    var n := Adjusted(m, dataClicks, sp);
    if m.stack.memLen != 0 && Accepts(m, dataClicks, sp) {
      assert Lower(n, sp) == Lower(m, sp);
      assert Accepts(n, dataClicks, sp);
      assert Proposed(n, dataClicks, sp) == n;
    }
  }

  // ---------------------------------------------------------------------
  // do_brk

  /** Two's-complement reinterpretation of a value as a 32-bit signed `long`. */
  function S32(x: int): (r: int)
    ensures -0x8000_0000 <= r < 0x8000_0000 && (r - x) % TWO32 == 0
  {
    (x + 0x8000_0000) % TWO32 - 0x8000_0000
  }

  /**
   * The click count break.c:69 computes for an address: the address is cast
   * to a 32-bit `long`, rounded up by CLICK_SIZE - 1 and shifted right
   * arithmetically, and the result is cast back to `vir_clicks`.
   */
  function NewClicks(addr: nat): (c: nat)
    ensures c < TWO32
  {
    U32(S32(S32(addr) + CLICK_SIZE - 1) / CLICK_SIZE)
  }

  /** The address rounded up to whole clicks. */
  function CeilClicks(addr: nat): (c: nat)
    ensures c * CLICK_SIZE >= addr && (c == 0 || (c - 1) * CLICK_SIZE < addr)
  {
    (addr + CLICK_SIZE - 1) / CLICK_SIZE
  }

  /** Below 2^31 - CLICK_SIZE + 1 the source's computation is the rounded-up click count. */
  lemma NewClicksAgree(addr: nat)
    requires addr + CLICK_SIZE - 1 < 0x8000_0000
    ensures NewClicks(addr) == CeilClicks(addr)
  {
  }

  /**
   * do_brk given the click count computed from addr: below the data
   * segment's virtual base the call fails at once; otherwise adjust
   * decides.  The reply pointer is addr on success and -1 on failure.
   */
  function Brk(m: MProc, clicks: nat, addr: nat, sp: nat): (res: (int, MProc))
    ensures res.0 == OK || res.0 == ENOMEM
    ensures res.1.reply.ptr == (if res.0 == OK then addr else -1)
    ensures res.0 == OK <==> clicks >= m.data.memVir && Accepts(m, clicks - m.data.memVir, sp)
    ensures res.0 != OK ==> res.1 == m.(reply := m.reply.(ptr := -1))
  {
    if clicks < m.data.memVir then (ENOMEM, m.(reply := m.reply.(ptr := -1)))
    else
      var d := clicks - m.data.memVir;
      var r := if Accepts(m, d, sp) then OK else ENOMEM;
      var n := Adjusted(m, d, sp);
      (r, n.(reply := n.reply.(ptr := if r == OK then addr else -1)))
  }

  /**
   * do_brk, with the click count of addr rounded up in full precision (see
   * NewClicksNearTop for what the 32-bit computation does instead).  The
   * stack pointer the kernel reports is a parameter.
   */
  method DoBrk(mp: array<MProc>, who: nat, addr: nat, sp: nat) returns (r: int, newmap: bool)
    requires who < mp.Length && MapsOk(mp[who]) && addr < TWO32
    modifies mp
    ensures (r, mp[who]) == Brk(old(mp[who]), CeilClicks(addr), addr, sp)
    ensures forall i :: 0 <= i < mp.Length && i != who ==> mp[i] == old(mp[i])
    ensures newmap ==> r == OK
  {
    var newClicks := (addr + CLICK_SIZE - 1) / CLICK_SIZE;
    if newClicks < mp[who].data.memVir {
      mp[who] := mp[who].(reply := mp[who].reply.(ptr := -1));
      return ENOMEM, false;
    }
    newClicks := newClicks - mp[who].data.memVir;
    r, newmap := Adjust(mp, who, newClicks, sp);
    mp[who] := mp[who].(reply := mp[who].reply.(ptr := if r == OK then addr else -1));
  }

  /**
   * A successful break on a process with a stack puts the data end exactly
   * at addr rounded up to a click, and leaves the safety margin below the
   * stack.
   */
  lemma BrkCoversAddr(m: MProc, addr: nat, sp: nat)
    requires MapsOk(m) && addr < TWO32 && m.stack.memLen != 0
    requires Brk(m, CeilClicks(addr), addr, sp).0 == OK
    ensures var n := Brk(m, CeilClicks(addr), addr, sp).1;
      && n.data.memVir + n.data.memLen == CeilClicks(addr)
      && (n.data.memVir + n.data.memLen) * CLICK_SIZE >= addr
      && n.data.memVir + n.data.memLen + SAFETY_CLICKS <= n.stack.memVir
  {
    var c := CeilClicks(addr);
    assert c <= VIR_CLICKS;
    AdjustKeepsApart(m, c - m.data.memVir, sp);
  }

  /**
   * The 32-bit computation goes wrong near the top of the address space:
   * for addr = 0xFFFFF001 it yields click 0.  A process whose data segment
   * starts at virtual click 0 then has its data segment cut to nothing and
   * is told the break is addr, where the rounded-up count refuses the call.
   */
  lemma NewClicksNearTop()
    ensures NewClicks(0xFFFF_F001) == 0 && CeilClicks(0xFFFF_F001) == 0x10_0000
    ensures var m := MProc(MemMap(0, 0, 0), MemMap(0, 100, 10), MemMap(200, 300, 10),
                           0, 0, 0, 0, 0, 0, 0, 0, 0, {}, ReplyMsg(0, 0, 0, 0));
      var sp := 205 * CLICK_SIZE;
      && MapsOk(m)
      && Brk(m, NewClicks(0xFFFF_F001), 0xFFFF_F001, sp).0 == OK
      && Brk(m, NewClicks(0xFFFF_F001), 0xFFFF_F001, sp).1.data.memLen == 0
      && Brk(m, CeilClicks(0xFFFF_F001), 0xFFFF_F001, sp).0 == ENOMEM
  {
    var m := MProc(MemMap(0, 0, 0), MemMap(0, 100, 10), MemMap(200, 300, 10),
                   0, 0, 0, 0, 0, 0, 0, 0, 0, {}, ReplyMsg(0, 0, 0, 0));
    var sp := 205 * CLICK_SIZE;
    assert S32(0xFFFF_F001) == 0xFFFF_F001 - TWO32;
    assert S32(S32(0xFFFF_F001) + CLICK_SIZE - 1) == 0;
    assert Accepts(m, 0, sp);
    assert !Accepts(m, 0x10_0000, sp);
  }
}
