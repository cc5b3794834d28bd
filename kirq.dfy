/**
 * Interrupt hooks: the 8259 handler chains of kernel/i8259.c
 * (put_irq_handler, rm_irq_handler, intr_handle) and the SYS_IRQCTL
 * kernel call of kernel/system/do_irqctl.c with its generic_handler.
 *
 * irq_hooks is a table of hook records; irq_handlers holds, for each IRQ
 * line, the chain of hooks to call, here a sequence of entries (the hook's
 * slot in irq_hooks and the bit of its id, id == 1 << bit); irq_use and
 * irq_actids are bitmaps, here sets of line numbers and of id bits.
 */
module KIrq {
  import opened KConst
  import opened KState
  import opened KIpc
  import opened KProc
  import KSystem

  const NR_IRQ_VECTORS: int := 16
  const NR_IRQ_HOOKS: int := 16
  /** CHAR_BIT * sizeof(irq_id_t): the bits of a notification id and of a hook id. */
  const IRQ_ID_BITS: int := 32
  const IRQ_REENABLE: int := 1

  const IRQ_SETPOLICY: int := 1
  const IRQ_RMPOLICY: int := 2
  const IRQ_ENABLE: int := 3
  const IRQ_DISABLE: int := 4

  /** irq_hook_t of a hook in irq_hooks: owner, notification id, policy, line and id bit. */
  datatype Hook = Hook(procNr: int, notifyId: int, policy: int, irq: int, bit: nat)

  /** A hook on a chain: its slot in irq_hooks and the bit of its id. */
  datatype Entry = Entry(slot: nat, bit: nat)

  // ---------------------------------------------------------------------
  // Chains as values

  function Slots(line: seq<Entry>): set<nat>
  {
    set e | e in line :: e.slot
  }

  function Bits(line: seq<Entry>): set<nat>
  {
    set e | e in line :: e.bit
  }

  /** No two hooks on a chain share an id. */
  predicate DistinctBits(line: seq<Entry>)
  {
    forall i, j :: 0 <= i < j < |line| ==> line[i].bit != line[j].bit
  }

  /** The lowest id bit from b up that no hook of the chain uses, or None when all 32 are taken. */
  function LowestFree(used: set<nat>, b: nat): (r: Option<nat>)
    decreases IRQ_ID_BITS - b
    ensures r.Some? ==> b <= r.value < IRQ_ID_BITS && r.value !in used
    ensures r.Some? ==> forall c :: b <= c < r.value ==> c in used
    ensures r.None? ==> forall c :: b <= c < IRQ_ID_BITS ==> c in used
  {
    if b >= IRQ_ID_BITS then None
    else if b !in used then Some(b)
    else LowestFree(used, b + 1)
  }

  /**
   * put_irq_handler as written: a hook already on the chain changes
   * nothing; otherwise it is appended with id 1 << (number of hooks on the
   * chain).  None is the panic once the shifted id has become 0.
   */
  function PutAsWritten(line: seq<Entry>, slot: nat): (r: Option<seq<Entry>>)
    ensures r.Some? && slot !in Slots(line) ==> r.value == line + [Entry(slot, |line|)]
    ensures r.None? <==> slot !in Slots(line) && |line| >= IRQ_ID_BITS
  {
    if slot in Slots(line) then Some(line)
    else if |line| >= IRQ_ID_BITS then None
    else Some(line + [Entry(slot, |line|)])
  }

  /**
   * put_irq_handler with the id chosen as the lowest bit no hook on the
   * chain uses; None is the panic when all 32 are in use.
   */
  function Put(line: seq<Entry>, slot: nat): Option<seq<Entry>>
  {
    if slot in Slots(line) then Some(line)
    else match LowestFree(Bits(line), 0)
      case None => None
      case Some(b) => Some(line + [Entry(slot, b)])
  }

  /** The position of the first hook with id bit b, |line| when there is none. */
  function FirstWith(line: seq<Entry>, b: nat): (i: nat)
    ensures i <= |line|
    ensures i < |line| ==> line[i].bit == b
    ensures forall j :: 0 <= j < i ==> line[j].bit != b
  {
    if line == [] then 0
    else if line[0].bit == b then 0
    else 1 + FirstWith(line[1..], b)
  }

  /** rm_irq_handler on a chain: the first hook whose id equals b is unlinked. */
  function Rm(line: seq<Entry>, b: nat): seq<Entry>
  {
    var i := FirstWith(line, b);
    if i < |line| then line[..i] + line[i + 1..] else line
  }

  /** A chain of fewer than 32 hooks always has a free id, so Put does not panic. */
  lemma PutSucceeds(line: seq<Entry>, slot: nat)
    requires |line| < IRQ_ID_BITS
    ensures Put(line, slot).Some?
  {
    if slot !in Slots(line) && LowestFree(Bits(line), 0).None? {
      BitsCard(line);
      SubsetCard(Upto(IRQ_ID_BITS), Bits(line));
      assert false;
    }
  }

  /** Put keeps the ids of a chain distinct, and the hook it appends has a new id. */
  lemma PutDistinct(line: seq<Entry>, slot: nat)
    requires DistinctBits(line) && Put(line, slot).Some?
    ensures DistinctBits(Put(line, slot).value)
    ensures slot in Slots(Put(line, slot).value)
  {
    var r := Put(line, slot).value;
    if slot !in Slots(line) {
      var b := LowestFree(Bits(line), 0).value;
      assert r == line + [Entry(slot, b)];
      forall i, j | 0 <= i < j < |r| ensures r[i].bit != r[j].bit {
        if j == |line| { assert r[i] == line[i]; assert line[i] in line; }
        else { assert r[i] == line[i] && r[j] == line[j]; }
      }
      assert r[|line|] in r;
    }
  }

  /** With distinct ids, removing by a hook's id unlinks exactly that hook. */
  lemma RmExactly(line: seq<Entry>, i: nat)
    requires DistinctBits(line) && i < |line|
    ensures Rm(line, line[i].bit) == line[..i] + line[i + 1..]
  {
    var f := FirstWith(line, line[i].bit);
  }

  /** Round trip: a hook put on a chain with distinct ids and then removed by its id leaves the chain as it was. */
  lemma PutRmRoundTrip(line: seq<Entry>, slot: nat)
    requires DistinctBits(line) && slot !in Slots(line) && Put(line, slot).Some?
    ensures var r := Put(line, slot).value; |r| == |line| + 1 && Rm(r, r[|line|].bit) == line
  {
    var r := Put(line, slot).value;
    PutDistinct(line, slot);
    RmExactly(r, |line|);
    assert r[..|line|] == line;
  }

  /** Removing keeps a chain's ids distinct and only drops hooks. */
  lemma RmSub(line: seq<Entry>, b: nat)
    requires DistinctBits(line)
    ensures DistinctBits(Rm(line, b))
    ensures forall e :: e in Rm(line, b) ==> e in line
    ensures |Rm(line, b)| == if b in Bits(line) then |line| - 1 else |line|
  {
    var i := FirstWith(line, b);
    if i < |line| {
      var r := line[..i] + line[i + 1..];
      forall j, l | 0 <= j < l < |r| ensures r[j].bit != r[l].bit {
        var j' := if j < i then j else j + 1;
        var l' := if l < i then l else l + 1;
        assert r[j] == line[j'] && r[l] == line[l'];
      }
      forall e | e in r ensures e in line {
        var m :| 0 <= m < |r| && r[m] == e;
        if m < i { assert line[m] == e; } else { assert line[m + 1] == e; }
      }
      assert line[i] in line;
    } else {
      forall e | e in line ensures e.bit != b {
        var m :| 0 <= m < |line| && line[m] == e;
      }
    }
  }

  /**
   * The chain as written goes wrong: hooks A (slot 0) and B (slot 1) are
   * put, A is removed, and C (slot 2) is put; C gets B's id, and removing
   * C by its id unlinks B and leaves C on the chain.
   */
  lemma AsWrittenIdClash()
    ensures var l2 := [Entry(0, 0), Entry(1, 1)];
      && PutAsWritten([], 0) == Some([Entry(0, 0)])
      && PutAsWritten([Entry(0, 0)], 1) == Some(l2)
      && Rm(l2, 0) == [Entry(1, 1)]
      && PutAsWritten([Entry(1, 1)], 2) == Some([Entry(1, 1), Entry(2, 1)])
      && !DistinctBits([Entry(1, 1), Entry(2, 1)])
      && Rm([Entry(1, 1), Entry(2, 1)], 1) == [Entry(2, 1)]
  {
    assert Slots([]) == {};
    assert Slots([Entry(0, 0)]) == {0};
    assert Slots([Entry(1, 1)]) == {1};
    assert [] + [Entry(0, 0)] == [Entry(0, 0)];
    assert [Entry(0, 0)] + [Entry(1, |[Entry(0, 0)]|)] == [Entry(0, 0), Entry(1, 1)];
    assert [Entry(1, 1)] + [Entry(2, |[Entry(1, 1)]|)] == [Entry(1, 1), Entry(2, 1)];
    assert FirstWith([Entry(0, 0), Entry(1, 1)], 0) == 0;
    assert FirstWith([Entry(1, 1), Entry(2, 1)], 1) == 0;
    var l4 := [Entry(1, 1), Entry(2, 1)];
    assert l4[0].bit == l4[1].bit;
  }

  /** The same steps with the lowest free id: C gets A's old id, and removing C by its id unlinks C. */
  lemma FixedIdsSeparate()
    ensures var l2 := [Entry(0, 0), Entry(1, 1)];
      && Put([], 0) == Some([Entry(0, 0)])
      && Put([Entry(0, 0)], 1) == Some(l2)
      && Put([Entry(1, 1)], 2) == Some([Entry(1, 1), Entry(2, 0)])
      && Rm([Entry(1, 1), Entry(2, 0)], 0) == [Entry(1, 1)]
  {
    assert Bits([Entry(0, 0)]) == {0};
    assert Bits([Entry(1, 1)]) == {1};
    assert Slots([Entry(0, 0)]) == {0};
    assert Slots([Entry(1, 1)]) == {1};
    assert Bits([]) == {};
    assert LowestFree({}, 0) == Some(0);
    assert LowestFree({0}, 0) == Some(1) by { assert LowestFree({0}, 1) == Some(1); }
    assert LowestFree({1}, 0) == Some(0);
    assert [] + [Entry(0, 0)] == [Entry(0, 0)];
    assert [Entry(0, 0)] + [Entry(1, 1)] == [Entry(0, 0), Entry(1, 1)];
    assert [Entry(1, 1)] + [Entry(2, 0)] == [Entry(1, 1), Entry(2, 0)];
    assert FirstWith([Entry(1, 1), Entry(2, 0)], 0) == 1;
  }

  // ---------------------------------------------------------------------
  // Counting

  /** A chain's ids are no more than its hooks. */
  lemma {:induction false} BitsCard(line: seq<Entry>)
    ensures |Bits(line)| <= |line|
  {
    if line != [] {
      var init := line[..|line| - 1];
      BitsCard(init);
      assert line == init + [line[|line| - 1]];
      assert Bits(line) == Bits(init) + {line[|line| - 1].bit};
    }
  }

  /** A chain with distinct slots, all below n, has at most n hooks. */
  lemma {:induction false} SlotsCard(line: seq<Entry>)
    requires forall i, j :: 0 <= i < j < |line| ==> line[i].slot != line[j].slot
    ensures |Slots(line)| == |line|
  {
    if line != [] {
      var init, last := line[..|line| - 1], line[|line| - 1];
      assert forall i :: 0 <= i < |init| ==> init[i] == line[i];
      SlotsCard(init);
      assert line == init + [last];
      SlotsSnoc(init, last);
      assert last.slot !in Slots(init) by {
        forall e | e in init ensures e.slot != last.slot {
          var m :| 0 <= m < |init| && init[m] == e;
          assert line[m] == e;
        }
      }
      assert |Slots(line)| == |Slots(init)| + 1;
    }
  }

  /** Appending a hook adds its slot. */
  lemma SlotsSnoc(init: seq<Entry>, last: Entry)
    ensures Slots(init + [last]) == Slots(init) + {last.slot}
  {
    assert forall e :: e in init + [last] <==> e in init || e == last;
  }

  /** The numbers below n, n of them. */
  function Upto(n: nat): (r: set<nat>)
    ensures forall c: nat :: c in r <==> c < n
    ensures |r| == n
  {
    if n == 0 then {} else Upto(n - 1) + {n - 1}
  }

  lemma {:induction false} SubsetCard(a: set<nat>, b: set<nat>)
    requires a <= b
    ensures |a| <= |b|
    decreases |a|
  {
    if a != {} {
      var x :| x in a;
      SubsetCard(a - {x}, b - {x});
    }
  }

  // ---------------------------------------------------------------------
  // The numbers in a SYS_IRQCTL request

  /**
   * do_irqctl's hook index: IRQ_HOOK_ID (a long) cast to unsigned, less
   * one, stored in an int; the subtraction wraps modulo 2^32.
   */
  function HookIndex(arg: int32): (r: int32)
    ensures arg > -0x8000_0000 ==> r == arg - 1
    ensures arg == -0x8000_0000 ==> r == 0x7FFF_FFFF
  {
    var u := (arg - 1) % 0x1_0000_0000;
    if u >= 0x8000_0000 then u - 0x1_0000_0000 else u
  }

  /** The check do_irqctl makes of a hook index before it reads irq_hooks: only the upper bound. */
  predicate HookCheckAsWritten(arg: int32)
  {
    HookIndex(arg) < NR_IRQ_HOOKS
  }

  /** IRQ_HOOK_ID 0 passes the check as written with index -1, outside irq_hooks. */
  lemma HookZeroEscapes()
    ensures HookCheckAsWritten(0) && HookIndex(0) == -1
  {
  }

  /** The corrected check, both bounds: it admits exactly the hook ids 1 .. NR_IRQ_HOOKS. */
  predicate HookCheck(arg: int32)
  {
    0 <= HookIndex(arg) < NR_IRQ_HOOKS
  }

  lemma HookCheckMeans(arg: int32)
    ensures HookCheck(arg) <==> 1 <= arg <= NR_IRQ_HOOKS
    ensures HookCheck(arg) ==> HookCheckAsWritten(arg)
  {
  }

  /** notify_id is compared as unsigned with 31: it is accepted exactly when it is 0 .. 31. */
  function NotifyIdOk(arg: int32): (r: bool)
    ensures r <==> 0 <= arg < IRQ_ID_BITS
  {
    arg % 0x1_0000_0000 <= IRQ_ID_BITS - 1
  }

  /** Interrupt id bit `id` has reached process p (privilege record v): pending, or in a HARDWARE notification in its buffer. */
  predicate IrqReached(p: Proc, v: Priv, id: nat)
  {
    || id in v.intPending
    || (p.messBuf.Notice? && p.messBuf.source == HARDWARE && p.messBuf.arg.IrqIds? && id in p.messBuf.arg.ids)
  }

  /**
   * What generic_handler's notification for hook h made of table t0,
   * records v0 and scheduler state s0: h's id joined the pending
   * interrupts of the owner's record, then HARDWARE's notification of the
   * owner followed (NotifyDone).
   */
  ghost predicate IrqNotified(t0: seq<Proc>, v0: seq<Priv>, s0: Ready, t: seq<Proc>, v: seq<Priv>, s: Ready, h: Hook, uptime: int)
  {
    && -NR_TASKS <= h.procNr < NR_PROCS && h.notifyId >= 0
    && var x := ProcSlot(h.procNr);
      && x < |t0| && t0[x].privId < |v0|
      && var pv := t0[x].privId;
        NotifyDone(t0, v0[pv := v0[pv].(intPending := v0[pv].intPending + {h.notifyId})], s0, t, v, s, ProcSlot(HARDWARE), x, uptime)
  }

  /** irq_actids after intr_handle calls the chain: each hook's bit is set, then cleared if its handler asked to reenable. */
  function ActAfter(act: set<nat>, line: seq<Entry>, reenable: seq<bool>): set<nat>
    requires |reenable| == |line|
    decreases |line|
  {
    if line == [] then act
    else ActAfter(ActStep(act, line[0], reenable[0]), line[1..], reenable[1..])
  }

  /** One hook's turn in intr_handle: its bit is set, and cleared again when its handler asks to reenable. */
  function ActStep(act: set<nat>, e: Entry, reenable: bool): set<nat>
  {
    var a := act + {e.bit};
    if reenable then a - {e.bit} else a
  }

  /** ActAfter from position i is one step and then ActAfter from i + 1. */
  lemma ActAfterStep(act: set<nat>, line: seq<Entry>, reenable: seq<bool>, i: nat)
    requires |reenable| == |line| && i < |line|
    ensures ActAfter(act, line[i..], reenable[i..]) == ActAfter(ActStep(act, line[i], reenable[i]), line[i + 1..], reenable[i + 1..])
  {
    assert line[i..][1..] == line[i + 1..] && reenable[i..][1..] == reenable[i + 1..];
  }

  /** Part way through intr_handle's loop: line irq's bits so far, every other line's as they were, and what the rest of the chain will do. */
  ghost predicate ChainAt(a0: seq<set<nat>>, a: seq<set<nat>>, irq: int, line: seq<Entry>, re: seq<bool>, i: int)
  {
    && 0 <= irq < |a0| == |a| && 0 <= i <= |line| == |re|
    && a == a0[irq := a[irq]]
    && ActAfter(a0[irq], line, re) == ActAfter(a[irq], line[i..], re[i..])
  }

  /** One turn of the loop keeps ChainAt. */
  lemma ChainStep(a0: seq<set<nat>>, a: seq<set<nat>>, irq: int, line: seq<Entry>, re: seq<bool>, i: int)
    requires ChainAt(a0, a, irq, line, re, i) && i < |line|
    ensures ChainAt(a0, a[irq := ActStep(a[irq], line[i], re[i])], irq, line, re, i + 1)
  {
    ActAfterStep(a[irq], line, re, i);
  }

  /** At the end of the loop line irq holds ActAfter of the whole chain. */
  lemma ChainDone(a0: seq<set<nat>>, a: seq<set<nat>>, irq: int, line: seq<Entry>, re: seq<bool>)
    requires ChainAt(a0, a, irq, line, re, |line|)
    ensures a == a0[irq := ActAfter(a0[irq], line, re)]
  {
    assert line[|line|..] == [] && re[|re|..] == [];
  }

  /** With distinct ids, the reenabling hooks' bits are cleared and the others' set. */
  lemma {:induction false} ActAfterMeans(act: set<nat>, line: seq<Entry>, reenable: seq<bool>)
    requires |reenable| == |line| && DistinctBits(line)
    decreases |line|
    ensures forall b :: b in ActAfter(act, line, reenable) <==>
      if exists i :: 0 <= i < |line| && line[i].bit == b then exists i :: 0 <= i < |line| && line[i].bit == b && !reenable[i]
      else b in act
  {
    if line != [] {
      var a' := ActStep(act, line[0], reenable[0]);
      assert DistinctBits(line[1..]) by {
        forall i, j | 0 <= i < j < |line[1..]| ensures line[1..][i].bit != line[1..][j].bit {
          assert line[i + 1].bit != line[j + 1].bit;
        }
      }
      ActAfterMeans(a', line[1..], reenable[1..]);
      forall b ensures b in ActAfter(act, line, reenable) <==>
        if exists i :: 0 <= i < |line| && line[i].bit == b then exists i :: 0 <= i < |line| && line[i].bit == b && !reenable[i]
        else b in act
      {
        if b == line[0].bit {
          forall i | 1 <= i < |line| ensures line[i].bit != b { }
          assert forall i :: 0 <= i < |line[1..]| ==> line[1..][i].bit != b;
        } else {
          if exists i :: 0 <= i < |line| && line[i].bit == b {
            var i :| 0 <= i < |line| && line[i].bit == b;
            assert line[1..][i - 1].bit == b;
            if exists j :: 0 <= j < |line[1..]| && line[1..][j].bit == b && !reenable[1..][j] {
              var j :| 0 <= j < |line[1..]| && line[1..][j].bit == b && !reenable[1..][j];
              assert line[j + 1].bit == b && !reenable[j + 1];
            }
            if exists j :: 0 <= j < |line| && line[j].bit == b && !reenable[j] {
              var j :| 0 <= j < |line| && line[j].bit == b && !reenable[j];
              assert line[1..][j - 1].bit == b && !reenable[1..][j - 1];
            }
          } else {
            forall j | 0 <= j < |line[1..]| ensures line[1..][j].bit != b { assert line[j + 1].bit != b; }
          }
        }
      }
    }
  }

  // ---------------------------------------------------------------------
  // The hook tables

  /** Every hook on line v's chain is an installed hook of line v with that id, owned by a process, with a valid notification id. */
  ghost predicate LineOk(line: seq<Entry>, hs: seq<Hook>, v: int)
  {
    && DistinctBits(line)
    && (forall i, j :: 0 <= i < j < |line| ==> line[i].slot != line[j].slot)
    && forall e :: e in line ==>
         && e.slot < |hs| && hs[e.slot].irq == v && hs[e.slot].bit == e.bit
         && -NR_TASKS <= hs[e.slot].procNr < NR_PROCS && 0 <= hs[e.slot].notifyId < IRQ_ID_BITS
  }

  /** The hook table, the chains and irq_use agree. */
  ghost predicate TablesOk(hs: seq<Hook>, lines: seq<seq<Entry>>, use: set<int>)
  {
    && |hs| == NR_IRQ_HOOKS && |lines| == NR_IRQ_VECTORS
    && (forall i :: 0 <= i < NR_IRQ_HOOKS ==> 0 <= hs[i].irq < NR_IRQ_VECTORS)
    && (forall v :: 0 <= v < NR_IRQ_VECTORS ==> LineOk(lines[v], hs, v))
    && use == set v | 0 <= v < NR_IRQ_VECTORS && lines[v] != []
  }

  /** A hook on a chain is on its own line's chain and has an owner; a free hook is on no chain. */
  lemma OnChainOwned(hs: seq<Hook>, lines: seq<seq<Entry>>, use: set<int>, slot: nat)
    requires TablesOk(hs, lines, use) && slot < NR_IRQ_HOOKS
    ensures forall v :: 0 <= v < NR_IRQ_VECTORS && slot in Slots(lines[v]) ==>
      v == hs[slot].irq && -NR_TASKS <= hs[slot].procNr < NR_PROCS
    ensures hs[slot].procNr == NONE ==> forall v :: 0 <= v < NR_IRQ_VECTORS ==> slot !in Slots(lines[v])
  {
    forall v | 0 <= v < NR_IRQ_VECTORS && slot in Slots(lines[v])
      ensures v == hs[slot].irq && -NR_TASKS <= hs[slot].procNr < NR_PROCS
    {
      var e :| e in lines[v] && e.slot == slot;
    }
  }

  /** A chain has at most NR_IRQ_HOOKS hooks, so fewer than 32. */
  lemma ChainShort(hs: seq<Hook>, lines: seq<seq<Entry>>, use: set<int>, v: int)
    requires TablesOk(hs, lines, use) && 0 <= v < NR_IRQ_VECTORS
    ensures |lines[v]| <= NR_IRQ_HOOKS < IRQ_ID_BITS
  {
    SlotsCard(lines[v]);
    assert Slots(lines[v]) <= Upto(NR_IRQ_HOOKS);
    SubsetCard(Slots(lines[v]), Upto(NR_IRQ_HOOKS));
  }

  /** Putting a hook that is on no chain onto line irq keeps the tables consistent. */
  lemma PutKeeps(hs: seq<Hook>, lines: seq<seq<Entry>>, use: set<int>, slot: nat, irq: int, b: nat)
    requires TablesOk(hs, lines, use) && slot < NR_IRQ_HOOKS && 0 <= irq < NR_IRQ_VECTORS
    requires -NR_TASKS <= hs[slot].procNr < NR_PROCS && 0 <= hs[slot].notifyId < IRQ_ID_BITS
    requires forall v :: 0 <= v < NR_IRQ_VECTORS ==> slot !in Slots(lines[v])
    requires Put(lines[irq], slot) == Some(lines[irq] + [Entry(slot, b)])
    ensures TablesOk(hs[slot := hs[slot].(irq := irq, bit := b)], lines[irq := lines[irq] + [Entry(slot, b)]], use + {irq})
  {
    var hs' := hs[slot := hs[slot].(irq := irq, bit := b)];
    var lines' := lines[irq := lines[irq] + [Entry(slot, b)]];
    PutDistinct(lines[irq], slot);
    forall v | 0 <= v < NR_IRQ_VECTORS ensures LineOk(lines'[v], hs', v) {
      forall e | e in lines[v] ensures e.slot != slot {
        assert e.slot in Slots(lines[v]);
      }
      if v == irq {
        var l := lines'[v];
        forall i, j | 0 <= i < j < |l| ensures l[i].slot != l[j].slot {
          if j == |lines[v]| { assert l[i] in lines[v]; }
        }
        forall e | e in l ensures e in lines[v] || e == Entry(slot, b) { }
      }
    }
    assert (set v | 0 <= v < NR_IRQ_VECTORS && lines'[v] != []) == use + {irq};
  }

  /** Removing from line v by an id keeps the tables consistent. */
  lemma RmKeeps(hs: seq<Hook>, lines: seq<seq<Entry>>, use: set<int>, v: int, b: nat)
    requires TablesOk(hs, lines, use) && 0 <= v < NR_IRQ_VECTORS
    ensures var lines' := lines[v := Rm(lines[v], b)];
      TablesOk(hs, lines', set w | 0 <= w < NR_IRQ_VECTORS && lines'[w] != [])
  {
    var line := lines[v];
    RmSub(line, b);
    var i := FirstWith(line, b);
    if i < |line| {
      var r := line[..i] + line[i + 1..];
      forall j, l | 0 <= j < l < |r| ensures r[j].slot != r[l].slot {
        var j' := if j < i then j else j + 1;
        var l' := if l < i then l else l + 1;
        assert r[j] == line[j'] && r[l] == line[l'];
      }
    }
  }

  /** Giving a free hook an owner, a notification id and a policy keeps the tables consistent. */
  lemma InstallKeeps(hs: seq<Hook>, lines: seq<seq<Entry>>, use: set<int>, slot: nat, h: Hook)
    requires TablesOk(hs, lines, use) && slot < NR_IRQ_HOOKS && hs[slot].procNr == NONE
    requires h.irq == hs[slot].irq && h.bit == hs[slot].bit
    ensures TablesOk(hs[slot := h], lines, use)
    ensures forall v :: 0 <= v < NR_IRQ_VECTORS ==> slot !in Slots(lines[v])
  {
    OnChainOwned(hs, lines, use, slot);
    forall v | 0 <= v < NR_IRQ_VECTORS ensures LineOk(lines[v], hs[slot := h], v) {
      forall e | e in lines[v] ensures e.slot != slot {
        assert e.slot in Slots(lines[v]);
      }
    }
  }

  /** rm_irq_handler on a hook's own line and id leaves that hook on no chain, whether or not it was on one. */
  lemma RmDetaches(hs: seq<Hook>, lines: seq<seq<Entry>>, use: set<int>, slot: nat)
    requires TablesOk(hs, lines, use) && slot < NR_IRQ_HOOKS
    ensures slot !in Slots(Rm(lines[hs[slot].irq], hs[slot].bit))
    ensures forall w :: 0 <= w < NR_IRQ_VECTORS && w != hs[slot].irq ==> slot !in Slots(lines[w])
  {
    var v := hs[slot].irq;
    var line := lines[v];
    OnChainOwned(hs, lines, use, slot);
    RmSub(line, hs[slot].bit);
    if slot in Slots(line) {
      var e :| e in line && e.slot == slot;
      var i :| 0 <= i < |line| && line[i] == e;
      RmExactly(line, i);
      var r := line[..i] + line[i + 1..];
      forall f | f in r ensures f.slot != slot {
        var j :| 0 <= j < |r| && r[j] == f;
        var j' := if j < i then j else j + 1;
        assert r[j] == line[j'] && j' != i;
      }
    }
  }

  /** A hook on no chain can be marked free (proc_nr NONE) without breaking the tables. */
  lemma FreeKeeps(hs: seq<Hook>, lines: seq<seq<Entry>>, use: set<int>, slot: nat)
    requires TablesOk(hs, lines, use) && slot < NR_IRQ_HOOKS
    requires forall v :: 0 <= v < NR_IRQ_VECTORS ==> slot !in Slots(lines[v])
    ensures TablesOk(hs[slot := hs[slot].(procNr := NONE)], lines, use)
  {
    forall v | 0 <= v < NR_IRQ_VECTORS ensures LineOk(lines[v], hs[slot := hs[slot].(procNr := NONE)], v) {
      forall e | e in lines[v] ensures e.slot != slot {
        assert e.slot in Slots(lines[v]);
      }
    }
  }

  /** Whether each hook of a chain asks for its line to be reenabled: its policy's IRQ_REENABLE bit. */
  function Reenables(line: seq<Entry>, hs: seq<Hook>): (r: seq<bool>)
    ensures |r| == |line|
  {
    seq(|line|, i requires 0 <= i < |line| => line[i].slot < |hs| && hs[line[i].slot].policy % 2 == IRQ_REENABLE)
  }

  /** One more hook's sample in bin b: the bins after the first i samples, then samples[i], are the bins after i + 1 samples. */
  lemma BinStep(bins: seq<KSystem.RBin>, prev: seq<KSystem.RBin>, b: nat, samples: seq<bv32>, i: nat)
    requires b < |bins| && KSystem.BinOk(bins[b]) && i < |samples|
    requires prev == bins[b := KSystem.SampledAll(bins[b], samples[..i])]
    ensures prev[b := KSystem.Sampled(prev[b], samples[i])] == bins[b := KSystem.SampledAll(bins[b], samples[..i + 1])]
  {
    KSystem.SampledAllStep(bins[b], samples, i);
  }

  class IrqTable {
    /** irq_hooks. */
    var hooks: array<Hook>
    /** irq_handlers: the chain of each IRQ line. */
    var lines: seq<seq<Entry>>
    /** irq_use: the lines with a handler. */
    var irqUse: set<int>
    /** irq_actids: for each line, the id bits of hooks whose handler has not yet asked to reenable it. */
    var actids: seq<set<nat>>

    ghost predicate Valid()
      reads this, hooks
    {
      TablesOk(hooks[..], lines, irqUse) && |actids| == NR_IRQ_VECTORS
    }

    /** Boot state (system.c initialize): every hook free (proc_nr NONE), no chains, nothing in use. */
    constructor ()
      ensures Valid() && fresh(hooks)
      ensures forall i :: 0 <= i < NR_IRQ_HOOKS ==> hooks[i].procNr == NONE
      ensures forall v :: 0 <= v < NR_IRQ_VECTORS ==> lines[v] == [] && actids[v] == {}
    {
      hooks := new Hook[NR_IRQ_HOOKS](_ => Hook(NONE, 0, 0, 0, 0));
      lines := seq(NR_IRQ_VECTORS, _ => []);
      actids := seq(NR_IRQ_VECTORS, _ => {});
      irqUse := {};
      new;
      assert (set v | 0 <= v < NR_IRQ_VECTORS && lines[v] != []) == {};
    }

    /**
     * put_irq_handler (with the lowest free id) for a hook on no chain:
     * the walk along line irq's chain collects the ids in use, and the hook
     * is appended with the lowest free one; irq becomes in use.
     */
    method PutHandler(slot: nat, irq: int)
      requires Valid() && slot < NR_IRQ_HOOKS && 0 <= irq < NR_IRQ_VECTORS
      requires -NR_TASKS <= hooks[slot].procNr < NR_PROCS && 0 <= hooks[slot].notifyId < IRQ_ID_BITS
      requires forall v :: 0 <= v < NR_IRQ_VECTORS ==> slot !in Slots(lines[v])
      modifies this, hooks
      ensures Valid()
      ensures Put(old(lines[irq]), slot) == Some(lines[irq])
      ensures lines == old(lines)[irq := lines[irq]] && actids == old(actids)
      ensures irqUse == old(irqUse) + {irq}
      ensures hooks[..] == old(hooks[..])[slot := hooks[slot]]
      ensures hooks[slot] == old(hooks[slot]).(irq := irq, bit := hooks[slot].bit)
    {
      var line := lines[irq];
      var used: set<nat> := {};
      var i := 0;
      while i < |line|
        invariant i <= |line| && used == Bits(line[..i])
      {
        assert line[..i + 1] == line[..i] + [line[i]];
        used := used + {line[i].bit};
        i := i + 1;
      }
      assert line[..i] == line;
      ChainShort(hooks[..], lines, irqUse, irq);
      PutSucceeds(line, slot);
      var b := LowestFree(used, 0).value;
      PutKeeps(hooks[..], lines, irqUse, slot, irq, b);
      hooks[slot] := hooks[slot].(irq := irq, bit := b);
      lines := lines[irq := line + [Entry(slot, b)]];
      irqUse := irqUse + {irq};
    }

    /**
     * rm_irq_handler: the first hook on the hook's line whose id equals the
     * hook's id is unlinked; a line left empty is no longer in use.
     */
    method RmHandler(slot: nat)
      requires Valid() && slot < NR_IRQ_HOOKS
      modifies this
      ensures Valid() && hooks == old(hooks) && actids == old(actids)
      ensures var v := hooks[slot].irq;
        lines == old(lines)[v := Rm(old(lines[v]), hooks[slot].bit)]
      ensures irqUse == set v | 0 <= v < NR_IRQ_VECTORS && lines[v] != []
    {
      var irq := hooks[slot].irq;
      var b := hooks[slot].bit;
      var line := lines[irq];
      var i := 0;
      while i < |line| && line[i].bit != b
        invariant i <= |line| && forall j :: 0 <= j < i ==> line[j].bit != b
      {
        i := i + 1;
      }
      assert i == FirstWith(line, b);
      RmKeeps(hooks[..], lines, irqUse, irq, b);
      if i < |line| {
        lines := lines[irq := line[..i] + line[i + 1..]];
        irqUse := set v | 0 <= v < NR_IRQ_VECTORS && lines[v] != [];
      } else {
        assert lines == lines[irq := Rm(line, b)];
      }
    }

    /**
     * generic_handler for hook `slot`: the sample (the cycle counter read
     * by get_randomness) enters the entropy bin of the hook's line, the
     * hook's notification id joins the owner's pending interrupts and
     * HARDWARE notifies the owner, so the id has reached it; the result is
     * the policy's IRQ_REENABLE bit.
     */
    method GenericHandler(k: Kernel, rnd: KSystem.Randomness, slot: nat, uptime: int, sample: bv32) returns (reenable: bool)
      requires Valid() && k.Valid() && rnd.Valid() && slot < NR_IRQ_HOOKS
      requires -NR_TASKS <= hooks[slot].procNr < NR_PROCS && 0 <= hooks[slot].notifyId < IRQ_ID_BITS
      modifies k, k.proc, k.priv, k.nextReady, k.rdyHead, k.rdyTail, rnd.bin
      ensures k.Valid() && k.procPtr == old(k.procPtr) && k.callerQ == old(k.callerQ)
      ensures rnd.Valid() && var b := hooks[slot].irq % KSystem.RANDOM_SOURCES;
        rnd.bin[..] == old(rnd.bin[..])[b := KSystem.Sampled(old(rnd.bin[b]), sample)]
      ensures reenable <==> hooks[slot].policy % 2 == IRQ_REENABLE
      ensures var x := ProcSlot(hooks[slot].procNr); var pv := old(k.proc[x].privId);
        && IrqReached(k.proc[x], k.priv[pv], hooks[slot].notifyId)
        && k.priv[..] == old(k.priv[..])[pv := k.priv[pv]]
        && Notified(old(k.proc[..]), k.proc[..], x)
      ensures IrqNotified(old(k.proc[..]), old(k.priv[..]), old(k.ReadyState()), k.proc[..], k.priv[..], k.ReadyState(), hooks[slot], uptime)
    {
      rnd.GetRandomness(hooks[slot].irq, sample);
      ghost var bins := rnd.bin[..];
      NotifyHook(k, slot, uptime);
      assert rnd.bin[..] == bins;
      reenable := hooks[slot].policy % 2 == IRQ_REENABLE;
    }

    /** The notification half of generic_handler: the hook's id joins the owner's pending interrupts and HARDWARE notifies the owner. */
    method NotifyHook(k: Kernel, slot: nat, uptime: int)
      requires Valid() && k.Valid() && slot < NR_IRQ_HOOKS
      requires -NR_TASKS <= hooks[slot].procNr < NR_PROCS && 0 <= hooks[slot].notifyId < IRQ_ID_BITS
      modifies k, k.proc, k.priv, k.nextReady, k.rdyHead, k.rdyTail
      ensures k.Valid() && k.procPtr == old(k.procPtr) && k.callerQ == old(k.callerQ)
      ensures var x := ProcSlot(hooks[slot].procNr); var pv := old(k.proc[x].privId);
        && IrqReached(k.proc[x], k.priv[pv], hooks[slot].notifyId)
        && k.priv[..] == old(k.priv[..])[pv := k.priv[pv]]
        && Notified(old(k.proc[..]), k.proc[..], x)
      ensures IrqNotified(old(k.proc[..]), old(k.priv[..]), old(k.ReadyState()), k.proc[..], k.priv[..], k.ReadyState(), hooks[slot], uptime)
    {
      var x := ProcSlot(hooks[slot].procNr);
      var pv := k.proc[x].privId;
      var v := k.priv[pv].(intPending := k.priv[pv].intPending + {hooks[slot].notifyId});
      PrivUpdateInv(k.Snap(), k.G(), None, pv, v);
      k.priv[pv] := v;
      ghost var t0, v0, s0 := k.proc[..], k.priv[..], k.ReadyState();
      assert v0 == old(k.priv[..])[pv := v];
      k.MiniNotify(ProcSlot(HARDWARE), x, uptime);
      NotifiedBy(t0, v0, s0, k.proc[..], k.priv[..], k.ReadyState(), ProcSlot(HARDWARE), x, uptime);
    }

    /**
     * intr_handle for line irq: each hook on the chain, in order, has its id
     * bit set in irq_actids, its handler called, and the bit cleared again
     * when the handler asks for the line to be reenabled.
     */
    method IntrHandle(k: Kernel, rnd: KSystem.Randomness, irq: int, uptime: int, samples: seq<bv32>)
      requires Valid() && k.Valid() && rnd.Valid() && 0 <= irq < NR_IRQ_VECTORS && |samples| == |lines[irq]|
      modifies this`actids, k, k.proc, k.priv, k.nextReady, k.rdyHead, k.rdyTail, rnd.bin
      ensures Valid() && k.Valid() && k.procPtr == old(k.procPtr) && k.callerQ == old(k.callerQ)
      ensures rnd.Valid() && var b := irq % KSystem.RANDOM_SOURCES;
        rnd.bin[..] == old(rnd.bin[..])[b := KSystem.SampledAll(old(rnd.bin[b]), samples)]
      ensures actids == old(actids)[irq := actids[irq]]
      ensures actids[irq] == ActAfter(old(actids[irq]), lines[irq], Reenables(lines[irq], hooks[..]))
      ensures forall b :: b in actids[irq] <==>
        if exists i :: 0 <= i < |lines[irq]| && lines[irq][i].bit == b
        then exists i :: 0 <= i < |lines[irq]| && lines[irq][i].bit == b && !Reenables(lines[irq], hooks[..])[i]
        else b in old(actids[irq])
    {
      RunChain(k, rnd, irq, uptime, samples);
      ActAfterMeans(old(actids[irq]), lines[irq], Reenables(lines[irq], hooks[..]));
    }

    /** The loop of intr_handle: the hooks of line irq's chain take their turns in order, hook i reading samples[i]. */
    method RunChain(k: Kernel, rnd: KSystem.Randomness, irq: int, uptime: int, samples: seq<bv32>)
      requires Valid() && k.Valid() && rnd.Valid() && 0 <= irq < NR_IRQ_VECTORS && |samples| == |lines[irq]|
      modifies this`actids, k, k.proc, k.priv, k.nextReady, k.rdyHead, k.rdyTail, rnd.bin
      ensures Valid() && k.Valid() && k.procPtr == old(k.procPtr) && k.callerQ == old(k.callerQ)
      ensures actids == old(actids)[irq := ActAfter(old(actids[irq]), lines[irq], Reenables(lines[irq], hooks[..]))]
      ensures rnd.Valid() && var b := irq % KSystem.RANDOM_SOURCES;
        rnd.bin[..] == old(rnd.bin[..])[b := KSystem.SampledAll(old(rnd.bin[b]), samples)]
    {
      var line := lines[irq];
      ghost var re := Reenables(line, hooks[..]);
      ghost var b := irq % KSystem.RANDOM_SOURCES;
      ghost var bins := rnd.bin[..];
      var i := 0;
      assert samples[..0] == [];
      while i < |line|
        invariant Valid() && k.Valid() && k.procPtr == old(k.procPtr) && k.callerQ == old(k.callerQ)
        invariant ChainAt(old(actids), actids, irq, line, re, i)
        invariant rnd.Valid() && rnd.bin[..] == bins[b := KSystem.SampledAll(bins[b], samples[..i])]
      {
        Turn(k, rnd, irq, i, uptime, samples, old(actids), re, bins);
        i := i + 1;
      }
      assert samples[..i] == samples;
      assert rnd.bin[..] == bins[b := KSystem.SampledAll(bins[b], samples)];
      ChainDone(old(actids), actids, irq, line, re);
    }

    /** One pass of intr_handle's loop: hook i of line irq's chain takes its turn, and the chain and the bin are one hook further. */
    method Turn(k: Kernel, rnd: KSystem.Randomness, irq: int, i: nat, uptime: int, samples: seq<bv32>,
                ghost a0: seq<set<nat>>, ghost re: seq<bool>, ghost bins: seq<KSystem.RBin>)
      requires Valid() && k.Valid() && rnd.Valid() && 0 <= irq < NR_IRQ_VECTORS && i < |lines[irq]| == |samples|
      requires re == Reenables(lines[irq], hooks[..]) && ChainAt(a0, actids, irq, lines[irq], re, i)
      requires |bins| == KSystem.RANDOM_SOURCES && KSystem.BinOk(bins[irq % KSystem.RANDOM_SOURCES])
      requires var b := irq % KSystem.RANDOM_SOURCES; rnd.bin[..] == bins[b := KSystem.SampledAll(bins[b], samples[..i])]
      modifies this`actids, k, k.proc, k.priv, k.nextReady, k.rdyHead, k.rdyTail, rnd.bin
      ensures Valid() && k.Valid() && k.procPtr == old(k.procPtr) && k.callerQ == old(k.callerQ)
      ensures ChainAt(a0, actids, irq, lines[irq], re, i + 1)
      ensures rnd.Valid() && var b := irq % KSystem.RANDOM_SOURCES;
        rnd.bin[..] == bins[b := KSystem.SampledAll(bins[b], samples[..i + 1])]
    {
      ghost var b := irq % KSystem.RANDOM_SOURCES;
      ChainStep(a0, actids, irq, lines[irq], re, i);
      ghost var prev := rnd.bin[..];
      HandleOne(k, rnd, irq, i, uptime, samples[i]);
      assert rnd.bin[..] == prev[b := KSystem.Sampled(prev[b], samples[i])];
      BinStep(bins, prev, b, samples, i);
    }

    /** The turn of the i-th hook on line irq's chain in intr_handle (ActStep). */
    method HandleOne(k: Kernel, rnd: KSystem.Randomness, irq: int, i: nat, uptime: int, sample: bv32)
      requires Valid() && k.Valid() && rnd.Valid() && 0 <= irq < NR_IRQ_VECTORS && i < |lines[irq]|
      modifies this`actids, k, k.proc, k.priv, k.nextReady, k.rdyHead, k.rdyTail, rnd.bin
      ensures Valid() && k.Valid() && k.procPtr == old(k.procPtr) && k.callerQ == old(k.callerQ)
      ensures rnd.Valid() && var b := irq % KSystem.RANDOM_SOURCES;
        rnd.bin[..] == old(rnd.bin[..])[b := KSystem.Sampled(old(rnd.bin[b]), sample)]
      ensures actids == old(actids)[irq := ActStep(old(actids[irq]), lines[irq][i], Reenables(lines[irq], hooks[..])[i])]
    {
      var e := lines[irq][i];
      ghost var re := Reenables(lines[irq], hooks[..]);
      assert e in lines[irq];
      assert e.slot in Slots(lines[irq]);
      OnChainOwned(hooks[..], lines, irqUse, e.slot);
      var act := actids[irq] + {e.bit};
      actids := actids[irq := act];
      var r := GenericHandler(k, rnd, e.slot, uptime, sample);
      assert r == re[i];
      if r {
        actids := actids[irq := act - {e.bit}];
      }
    }

    /**
     * do_irqctl for a request from process src: ENABLE, DISABLE and
     * RMPOLICY name an existing hook (HookRequest), SETPOLICY installs a
     * new one (SetPolicy), and any other request is EINVAL.
     */
    method DoIrqctl(src: int, request: int, vec: int, policy: int, hookArg: int32) returns (r: int, hookOut: int)
      requires Valid() && -NR_TASKS <= src < NR_PROCS
      modifies this, hooks
      ensures Valid()
      ensures request == IRQ_ENABLE || request == IRQ_DISABLE || request == IRQ_RMPOLICY ==>
        && HookRequested(old(hooks[..]), old(lines), src, request, hookArg, r, hooks[..], lines) && hookOut == hookArg
        && ActidsRequested(old(hooks[..]), request, hookArg, r, old(actids), actids)
      ensures request != IRQ_ENABLE && request != IRQ_DISABLE ==> actids == old(actids)
      ensures request == IRQ_SETPOLICY ==>
        PolicySet(old(hooks[..]), old(lines), src, vec, policy, hookArg, r, hookOut, hooks[..], lines)
      ensures request !in {IRQ_ENABLE, IRQ_DISABLE, IRQ_SETPOLICY, IRQ_RMPOLICY} ==>
        r == EINVAL && hooks[..] == old(hooks[..]) && lines == old(lines) && hookOut == hookArg
    {
      if request == IRQ_ENABLE || request == IRQ_DISABLE || request == IRQ_RMPOLICY {
        r := HookRequest(src, request, hookArg);
        hookOut := hookArg;
      } else if request == IRQ_SETPOLICY {
        r, hookOut := SetPolicy(src, vec, policy, hookArg);
      } else {
        r, hookOut := EINVAL, hookArg;
      }
    }

    /**
     * ENABLE, DISABLE and RMPOLICY: EINVAL when the hook index is out of
     * range or the hook is free, EPERM when src does not own it; RMPOLICY
     * then unlinks the hook, which stays allocated to src.
     */
    method HookRequest(src: int, request: int, hookArg: int32) returns (r: int)
      requires Valid() && -NR_TASKS <= src < NR_PROCS
      modifies this
      ensures Valid() && hooks == old(hooks)
      ensures HookRequested(old(hooks[..]), old(lines), src, request, hookArg, r, hooks[..], lines)
      ensures ActidsRequested(old(hooks[..]), request, hookArg, r, old(actids), actids)
    {
      var idx := HookIndex(hookArg);
      if !(0 <= idx < NR_IRQ_HOOKS) || hooks[idx].procNr == NONE {
        return EINVAL;
      }
      if hooks[idx].procNr != src {
        return EPERM;
      }
      var h := hooks[idx];
      if request == IRQ_ENABLE {
        actids := actids[h.irq := actids[h.irq] - {h.bit}];
      } else if request == IRQ_DISABLE {
        actids := actids[h.irq := actids[h.irq] + {h.bit}];
      } else if request == IRQ_RMPOLICY {
        RmHandler(idx);
      }
      r := OK;
    }

    /**
     * SETPOLICY: EINVAL for a line out of range; ENOSPC when no hook is
     * free; EINVAL for a notification id above 31; otherwise the first free
     * hook is given to src with the id and policy, put on the line, and its
     * index plus one is returned.
     */
    method SetPolicy(src: int, vec: int, policy: int, hookArg: int32) returns (r: int, hookOut: int)
      requires Valid() && -NR_TASKS <= src < NR_PROCS
      modifies this, hooks
      ensures Valid() && actids == old(actids)
      ensures PolicySet(old(hooks[..]), old(lines), src, vec, policy, hookArg, r, hookOut, hooks[..], lines)
    {
      hookOut := hookArg;
      if !(0 <= vec < NR_IRQ_VECTORS) {
        return EINVAL, hookOut;
      }
      var s := FreeHook();
      if s == NR_IRQ_HOOKS {
        return ENOSPC, hookOut;
      }
      if !NotifyIdOk(hookArg) {
        assert hooks[s].procNr == NONE;
        return EINVAL, hookOut;
      }
      ghost var h0, l0 := hooks[..], lines;
      Install(s, src, hookArg, policy, vec);
      hookOut := s + 1;
      r := OK;
      SetPolicyOk(h0, l0, src, vec, policy, hookArg, s, hooks[..], lines);
    }

    /**
     * clear_proc's hook loop (kernel/system/do_exit.c): every hook owned by
     * process nr is removed from its line by its id and marked free.  The
     * chains only lose hooks, and the released hooks are on none of them.
     */
    method ReleaseHooks(nr: int)
      requires Valid()
      modifies this, hooks
      ensures Valid() && hooks == old(hooks) && actids == old(actids)
      ensures forall i :: 0 <= i < NR_IRQ_HOOKS ==>
        hooks[i] == if old(hooks[i].procNr) == nr then old(hooks[i]).(procNr := NONE) else old(hooks[i])
      ensures forall i, v :: 0 <= i < NR_IRQ_HOOKS && old(hooks[i].procNr) == nr && 0 <= v < NR_IRQ_VECTORS ==> i !in Slots(lines[v])
      ensures forall v, e :: 0 <= v < NR_IRQ_VECTORS && e in lines[v] ==> e in old(lines[v])
    {
      ghost var h0 := hooks[..];
      ghost var l0 := lines;
      var i := 0;
      while i < NR_IRQ_HOOKS
        invariant 0 <= i <= NR_IRQ_HOOKS && Valid() && hooks == old(hooks) && actids == old(actids)
        invariant forall j :: 0 <= j < NR_IRQ_HOOKS ==> hooks[j] == if j < i && h0[j].procNr == nr then h0[j].(procNr := NONE) else h0[j]
        invariant forall j, v :: 0 <= j < i && h0[j].procNr == nr && 0 <= v < NR_IRQ_VECTORS ==> j !in Slots(lines[v])
        invariant forall v, e :: 0 <= v < NR_IRQ_VECTORS && e in lines[v] ==> e in l0[v]
      {
        if hooks[i].procNr == nr {
          ReleaseOne(i);
        }
        i := i + 1;
      }
    }

    /** One step of clear_proc's hook loop: rm_irq_handler on hook i, then proc_nr NONE. */
    method ReleaseOne(i: nat)
      requires Valid() && i < NR_IRQ_HOOKS
      modifies this, hooks
      ensures Valid() && hooks == old(hooks) && actids == old(actids)
      ensures hooks[..] == old(hooks[..])[i := old(hooks[i]).(procNr := NONE)]
      ensures forall v :: 0 <= v < NR_IRQ_VECTORS ==> i !in Slots(lines[v])
      ensures forall v :: 0 <= v < NR_IRQ_VECTORS ==> Slots(lines[v]) <= old(Slots(lines[v]))
      ensures forall v, e :: 0 <= v < NR_IRQ_VECTORS && e in lines[v] ==> e in old(lines[v])
    {
      ghost var l1 := lines;
      var v := hooks[i].irq;
      var b := hooks[i].bit;
      RmDetaches(hooks[..], lines, irqUse, i);
      RmSub(lines[v], b);
      RmHandler(i);
      assert lines == l1[v := Rm(l1[v], b)];
      FreeKeeps(hooks[..], lines, irqUse, i);
      hooks[i] := hooks[i].(procNr := NONE);
    }

    /** The first free hook (proc_nr NONE), NR_IRQ_HOOKS when there is none. */
    method FreeHook() returns (s: int)
      requires Valid()
      ensures 0 <= s <= NR_IRQ_HOOKS && forall i :: 0 <= i < s ==> hooks[i].procNr != NONE
      ensures s < NR_IRQ_HOOKS ==> hooks[s].procNr == NONE
    {
      s := 0;
      while s < NR_IRQ_HOOKS && hooks[s].procNr != NONE
        invariant 0 <= s <= NR_IRQ_HOOKS && forall i :: 0 <= i < s ==> hooks[i].procNr != NONE
      {
        s := s + 1;
      }
    }

    /** Free hook s becomes src's, with notification id nid and policy, and is put on line vec. */
    method Install(s: nat, src: int, nid: int, policy: int, vec: int)
      requires Valid() && s < NR_IRQ_HOOKS && hooks[s].procNr == NONE
      requires -NR_TASKS <= src < NR_PROCS && 0 <= nid < IRQ_ID_BITS && 0 <= vec < NR_IRQ_VECTORS
      modifies this, hooks
      ensures Valid() && actids == old(actids)
      ensures hooks[..] == old(hooks[..])[s := hooks[s]]
      ensures hooks[s] == Hook(src, nid, policy, vec, hooks[s].bit)
      ensures Put(old(lines[vec]), s) == Some(lines[vec]) && lines == old(lines)[vec := lines[vec]]
      ensures Rm(lines[vec], hooks[s].bit) == old(lines[vec])
    {
      ghost var line0 := lines[vec];
      var h := hooks[s].(procNr := src, notifyId := nid, policy := policy);
      InstallKeeps(hooks[..], lines, irqUse, s, h);
      hooks[s] := h;
      PutHandler(s, vec);
      PutRmRoundTrip(line0, s);
    }
  }

  /** The OK outcome of SETPOLICY, from Install's effect on hook s. */
  lemma SetPolicyOk(hs: seq<Hook>, lines: seq<seq<Entry>>, src: int, vec: int, policy: int, hookArg: int32, s: nat,
                    hs': seq<Hook>, lines': seq<seq<Entry>>)
    requires |hs| == |hs'| == NR_IRQ_HOOKS && |lines| == |lines'| == NR_IRQ_VECTORS
    requires s < NR_IRQ_HOOKS && hs[s].procNr == NONE && (forall i :: 0 <= i < s ==> hs[i].procNr != NONE)
    requires 0 <= vec < NR_IRQ_VECTORS && NotifyIdOk(hookArg) && -NR_TASKS <= src < NR_PROCS
    requires hs' == hs[s := hs'[s]] && hs'[s] == Hook(src, hookArg, policy, vec, hs'[s].bit)
    requires Put(lines[vec], s) == Some(lines'[vec]) && lines' == lines[vec := lines'[vec]]
    requires Rm(lines'[vec], hs'[s].bit) == lines[vec]
    ensures PolicySet(hs, lines, src, vec, policy, hookArg, OK, s + 1, hs', lines')
  {
  }

  /**
   * The outcome of ENABLE, DISABLE or RMPOLICY on tables hs, lines: EINVAL
   * exactly when the index is out of range or the hook free, EPERM exactly
   * when another process owns it, else OK; only an OK RMPOLICY changes the
   * chains, unlinking the hook's id from its line.
   */
  ghost predicate HookRequested(hs: seq<Hook>, lines: seq<seq<Entry>>, src: int, request: int, hookArg: int32,
                                r: int, hs': seq<Hook>, lines': seq<seq<Entry>>)
    requires |hs| == NR_IRQ_HOOKS && |lines| == NR_IRQ_VECTORS && forall i :: 0 <= i < NR_IRQ_HOOKS ==> 0 <= hs[i].irq < NR_IRQ_VECTORS
  {
    var idx := HookIndex(hookArg);
    && (r == EINVAL <==> !HookCheck(hookArg) || hs[idx].procNr == NONE)
    && (r == EPERM <==> HookCheck(hookArg) && hs[idx].procNr != NONE && hs[idx].procNr != src)
    && (r == OK <==> HookCheck(hookArg) && hs[idx].procNr == src)
    && hs' == hs
    && (request == IRQ_RMPOLICY && r == OK ==> lines' == lines[hs[idx].irq := Rm(lines[hs[idx].irq], hs[idx].bit)])
    && (request != IRQ_RMPOLICY || r != OK ==> lines' == lines)
  }

  /**
   * irq_actids after ENABLE, DISABLE or RMPOLICY: an accepted ENABLE runs
   * enable_irq, which clears the hook's id bit on its line; an accepted
   * DISABLE runs disable_irq, which sets it; nothing else changes them.
   */
  ghost predicate ActidsRequested(hs: seq<Hook>, request: int, hookArg: int32, r: int,
                                  a: seq<set<nat>>, a': seq<set<nat>>)
    requires |hs| == NR_IRQ_HOOKS && |a| == NR_IRQ_VECTORS && forall i :: 0 <= i < NR_IRQ_HOOKS ==> 0 <= hs[i].irq < NR_IRQ_VECTORS
  {
    var idx := HookIndex(hookArg);
    if r == OK && request == IRQ_ENABLE && HookCheck(hookArg) then
      a' == a[hs[idx].irq := a[hs[idx].irq] - {hs[idx].bit}]
    else if r == OK && request == IRQ_DISABLE && HookCheck(hookArg) then
      a' == a[hs[idx].irq := a[hs[idx].irq] + {hs[idx].bit}]
    else
      a' == a
  }

  /**
   * The outcome of SETPOLICY: EINVAL for a bad line, or for a bad
   * notification id when a hook is free; ENOSPC when none is free; on OK
   * the returned index names the first free hook, now src's, on the line's
   * chain, and removing it by its id would give back the old chain.
   */
  ghost predicate PolicySet(hs: seq<Hook>, lines: seq<seq<Entry>>, src: int, vec: int, policy: int, hookArg: int32,
                            r: int, hookOut: int, hs': seq<Hook>, lines': seq<seq<Entry>>)
    requires |hs| == |hs'| == NR_IRQ_HOOKS && |lines| == |lines'| == NR_IRQ_VECTORS
  {
    && (r == EINVAL <==> !(0 <= vec < NR_IRQ_VECTORS) || ((exists i :: 0 <= i < NR_IRQ_HOOKS && hs[i].procNr == NONE) && !NotifyIdOk(hookArg)))
    && (r == ENOSPC <==> 0 <= vec < NR_IRQ_VECTORS && forall i :: 0 <= i < NR_IRQ_HOOKS ==> hs[i].procNr != NONE)
    && (r != OK ==> hs' == hs && lines' == lines && hookOut == hookArg)
    && (r == OK ==>
          var s := hookOut - 1;
          && 0 <= s < NR_IRQ_HOOKS && hs[s].procNr == NONE && 0 <= vec < NR_IRQ_VECTORS
          && (forall i :: 0 <= i < s ==> hs[i].procNr != NONE)
          && hs' == hs[s := hs'[s]]
          && hs'[s] == Hook(src, hookArg, policy, vec, hs'[s].bit)
          && Put(lines[vec], s) == Some(lines'[vec]) && lines' == lines[vec := lines'[vec]]
          && Rm(lines'[vec], hs'[s].bit) == lines[vec])
  }
}
