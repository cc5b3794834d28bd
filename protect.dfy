/**
 * Segment descriptors, gate descriptors and selectors of kernel/protect.c,
 * in the i386 formats of the Intel 64 and IA-32 Architectures Software
 * Developer's Manual, Volume 3A, section 3.4.5 (segment descriptors) and
 * section 3.4.2 (segment selectors).  Values that live in kernel/protect.h,
 * which is outside this model, are those of MINIX 3.1.0.
 *
 * Descriptor fields are unsigned bytes and shorts; they are modelled as
 * naturals below 2^8 or 2^16.  A right shift by k is a division by 2^k,
 * storing into a u8_t or u16_t field keeps the value modulo 2^8 or 2^16,
 * and an or of bit fields that do not overlap is written as a sum.
 */
module Protect {
  import opened KConst

  const TWO8: nat := 0x100
  const TWO16: nat := 0x1_0000
  const TWO24: nat := 0x100_0000
  const TWO32: nat := 0x1_0000_0000

  /** phys_bytes and vir_bytes: unsigned 32-bit words. */
  type u32 = x: int | 0 <= x < 0x1_0000_0000

  // Descriptor field layout.
  const BYTE_GRAN_MAX: nat := 0xF_FFFF
  const PAGE_GRAN_SIZE: nat := 0x1000      // 1 << PAGE_GRAN_SHIFT
  const GRANULARITY_SIZE: nat := TWO16     // 1 << GRANULARITY_SHIFT

  // Granularity byte.
  const GRANULAR: nat := 0x80
  const DEFAULT: nat := 0x40

  // Access byte.
  const PRESENT: nat := 0x80
  const DPL_SIZE: nat := 0x20              // 1 << DPL_SHIFT
  const SEGMENT: nat := 0x10
  const EXECUTABLE: nat := 0x08
  const READABLE: nat := 0x02
  const WRITEABLE: nat := 0x02
  const LDT: nat := 0x02

  // Privilege levels.
  const INTR_PRIVILEGE: nat := 0
  const TASK_PRIVILEGE: nat := 1
  const USER_PRIVILEGE: nat := 3

  // Selectors.
  const DESC_SIZE: nat := 8
  const TI: nat := 4
  const CS_LDT_INDEX: nat := 0
  const DS_LDT_INDEX: nat := 1
  const EXTRA_LDT_INDEX: nat := 2
  const CS_INDEX: nat := 6
  const CS_SELECTOR: nat := 48
  const FIRST_LDT_INDEX: int := 15
  /** One LDT descriptor in the GDT per process-table slot. */
  const GDT_SIZE: int := FIRST_LDT_INDEX + NR_SLOTS
  /** Descriptors in a process's own LDT. */
  const LDT_SIZE: int := 5
  /** sizeof(p_ldt): LDT_SIZE descriptors of DESC_SIZE bytes. */
  const LDT_BYTES: nat := 40

  /** Bit `m` (a power of two) of `x`. */
  predicate HasBit(x: nat, m: nat)
    requires m > 0
  {
    (x / m) % 2 == 1
  }

  /** struct segdesc_s: each field holds what its u16_t or u8_t field stores. */
  datatype SegDesc = SegDesc(
    limitLow: nat,
    baseLow: nat,
    baseMiddle: nat,
    access: nat,
    granularity: nat,
    baseHigh: nat)

  /** struct gatedesc_s, without its unused pad byte. */
  datatype GateDesc = GateDesc(offsetLow: nat, selector: nat, pDplType: nat, offsetHigh: nat)

  /** The 20-bit limit field, spread over limit_low and the low nibble of granularity. */
  function LimitField(d: SegDesc): nat
  {
    (d.granularity % 16) * TWO16 + d.limitLow
  }

  /** The last valid offset of a segment, as the processor computes it from the limit field and the G bit. */
  function EffectiveLimit(d: SegDesc): nat
  {
    if HasBit(d.granularity, GRANULAR) then LimitField(d) * PAGE_GRAN_SIZE + 0xFFF else LimitField(d)
  }

  /** The base address, reassembled as seg2phys does in protected mode. */
  function DescBase(d: SegDesc): nat
  {
    d.baseLow + d.baseMiddle * TWO16 + d.baseHigh * TWO24
  }

  /** sdesc: the base, limit and granularity fields of a descriptor; `access` is left for the caller. */
  function Sdesc(base: u32, size: u32, access: nat): (d: SegDesc)
  {
    // --size on an unsigned word: a size of 0 becomes the largest limit.
    var limit := (size - 1) % TWO32;
    SegDesc(
      if limit > BYTE_GRAN_MAX then (limit / PAGE_GRAN_SIZE) % TWO16 else limit % TWO16,
      base % TWO16,
      (base / TWO16) % TWO8,
      access,
      (if limit > BYTE_GRAN_MAX then GRANULAR + limit / (PAGE_GRAN_SIZE * GRANULARITY_SIZE)
       else limit / GRANULARITY_SIZE) + DEFAULT,
      base / TWO24)
  }

  /** seg2phys inverts sdesc's split of the base into 16, 8 and 8 bits, and every field fits its C type. */
  lemma BaseRoundTrip(base: u32, size: u32, access: nat)
    ensures var d := Sdesc(base, size, access);
      && DescBase(d) == base
      && d.baseLow < TWO16 && d.baseMiddle < TWO8 && d.baseHigh < TWO8
      && d.limitLow < TWO16 && d.granularity < TWO8
  {
    var d := Sdesc(base, size, access);
    assert base == (base / TWO16) * TWO16 + base % TWO16;
    assert base / TWO16 == (base / TWO24) * TWO8 + (base / TWO16) % TWO8;
  }

  /** A limit up to BYTE_GRAN_MAX: stored exactly, G clear, D/B set. */
  lemma ByteGranular(base: u32, size: u32, access: nat)
    requires (size - 1) % TWO32 <= BYTE_GRAN_MAX
    ensures var d := Sdesc(base, size, access);
      HasBit(d.granularity, DEFAULT) && !HasBit(d.granularity, GRANULAR)
      && EffectiveLimit(d) == size - 1
  {
    var limit := (size - 1) % TWO32;
    assert limit == size - 1;
    var d := Sdesc(base, size, access);
    assert d.granularity == limit / TWO16 + DEFAULT;
    assert d.granularity % 16 == limit / TWO16;
    assert limit == (limit / TWO16) * TWO16 + limit % TWO16;
  }

  /** A larger limit: stored in 4 KiB pages with G and D/B set, covering up to the end of the limit's page. */
  lemma PageGranular(base: u32, size: u32, access: nat)
    requires (size - 1) % TWO32 > BYTE_GRAN_MAX
    ensures var d := Sdesc(base, size, access);
      var limit := (size - 1) % TWO32;
      HasBit(d.granularity, DEFAULT) && HasBit(d.granularity, GRANULAR)
      && EffectiveLimit(d) == (limit / PAGE_GRAN_SIZE) * PAGE_GRAN_SIZE + 0xFFF
  {
    var limit := (size - 1) % TWO32;
    var pages := limit / PAGE_GRAN_SIZE;
    var d := Sdesc(base, size, access);
    assert limit / (PAGE_GRAN_SIZE * GRANULARITY_SIZE) == pages / TWO16;
    assert d.granularity == GRANULAR + pages / TWO16 + DEFAULT;
    assert pages / TWO16 < 16;
    assert d.granularity % 16 == pages / TWO16;
    assert pages == (pages / TWO16) * TWO16 + pages % TWO16;
    assert LimitField(d) == pages;
  }

  /**
   * The limit is size - 1 (so size 0 means the whole 4 GiB space).  A limit
   * up to BYTE_GRAN_MAX is stored exactly with byte granularity; a larger one
   * is stored in pages with the G bit set and reaches the last byte of its
   * page, at most 4095 bytes past the limit.  The D/B bit is always set.
   */
  lemma LimitEncoding(base: u32, size: u32, access: nat)
    ensures var d := Sdesc(base, size, access);
      var limit := (size - 1) % TWO32;
      && HasBit(d.granularity, DEFAULT)
      && (HasBit(d.granularity, GRANULAR) <==> limit > BYTE_GRAN_MAX)
      && (limit <= BYTE_GRAN_MAX ==> EffectiveLimit(d) == limit)
      && limit <= EffectiveLimit(d) < limit + PAGE_GRAN_SIZE
      && EffectiveLimit(d) < TWO32
  {
    if (size - 1) % TWO32 > BYTE_GRAN_MAX {
      PageGranular(base, size, access);
    } else {
      ByteGranular(base, size, access);
    }
  }

  /** A zero size wraps to the largest limit, a flat 4 GiB segment. */
  lemma ZeroSizeIsFourGiB(base: u32, access: nat)
    ensures EffectiveLimit(Sdesc(base, 0, access)) == TWO32 - 1
  {
    PageGranular(base, 0, access);
  }

  /** A size that is a non-zero whole number of pages ends exactly at its last byte, in either granularity. */
  lemma WholePagesAreExact(base: u32, size: u32, access: nat)
    requires size % PAGE_GRAN_SIZE == 0
    ensures size > 0 ==> EffectiveLimit(Sdesc(base, size, access)) == size - 1
  {
    if size == 0 {
    } else if (size - 1) % TWO32 > BYTE_GRAN_MAX {
      PageGranular(base, size, access);
      assert (size - 1) / PAGE_GRAN_SIZE == size / PAGE_GRAN_SIZE - 1;
    } else {
      ByteGranular(base, size, access);
    }
  }

  /** The access byte of init_codeseg: present, code, readable, at the given privilege. */
  function CodeAccess(privilege: nat): (a: nat)
    requires privilege <= 3
    ensures a < TWO8
    ensures HasBit(a, PRESENT) && HasBit(a, SEGMENT) && HasBit(a, EXECUTABLE) && HasBit(a, READABLE)
    ensures (a / DPL_SIZE) % 4 == privilege
  {
    privilege * DPL_SIZE + (PRESENT + SEGMENT + EXECUTABLE + READABLE)
  }

  /** The access byte of init_dataseg: present, data, writeable, not executable, at the given privilege. */
  function DataAccess(privilege: nat): (a: nat)
    requires privilege <= 3
    ensures a < TWO8
    ensures HasBit(a, PRESENT) && HasBit(a, SEGMENT) && HasBit(a, WRITEABLE) && !HasBit(a, EXECUTABLE)
    ensures (a / DPL_SIZE) % 4 == privilege
  {
    privilege * DPL_SIZE + (PRESENT + SEGMENT + WRITEABLE)
  }

  /** init_codeseg: a code descriptor over [base, base + size). */
  function InitCodeSeg(base: u32, size: u32, privilege: nat): (d: SegDesc)
    requires privilege <= 3
    ensures DescBase(d) == base && d.access == CodeAccess(privilege)
  {
    BaseRoundTrip(base, size, CodeAccess(privilege));
    Sdesc(base, size, CodeAccess(privilege))
  }

  /** init_dataseg: a data descriptor over [base, base + size). */
  function InitDataSeg(base: u32, size: u32, privilege: nat): (d: SegDesc)
    requires privilege <= 3
    ensures DescBase(d) == base && d.access == DataAccess(privilege)
  {
    BaseRoundTrip(base, size, DataAccess(privilege));
    Sdesc(base, size, DataAccess(privilege))
  }

  /**
   * seg2phys: in real mode a segment register holds the base in 16-byte
   * units; in protected mode it selects the GDT entry whose base is read back.
   */
  function Seg2Phys(protected: bool, gdt: seq<SegDesc>, seg: nat): (base: nat)
    requires seg < TWO16
    requires protected ==> seg / DESC_SIZE < |gdt|
    ensures !protected ==> base == seg * 16
    ensures protected ==> base == DescBase(gdt[seg / DESC_SIZE])
  {
    if !protected then seg * 16 else DescBase(gdt[seg / DESC_SIZE])
  }

  /** A GDT entry made by init_codeseg or init_dataseg yields its base back through seg2phys. */
  lemma Seg2PhysRoundTrip(gdt: seq<SegDesc>, index: nat, rpl: nat, base: u32, size: u32, privilege: nat, code: bool)
    requires index < |gdt| && index < 8192 && rpl <= 3 && privilege <= 3
    requires gdt[index] == if code then InitCodeSeg(base, size, privilege) else InitDataSeg(base, size, privilege)
    ensures Seg2Phys(true, gdt, Selector(index, false, rpl)) == base
  {
    SelectorFields(index, false, rpl);
  }

  /**
   * A selector: table index, table indicator (set for the LDT) and
   * requested privilege level, packed as index * 8 | TI | RPL.
   */
  function Selector(index: nat, ldt: bool, rpl: nat): (s: nat)
    requires rpl <= 3
  {
    index * DESC_SIZE + (if ldt then TI else 0) + rpl
  }

  /** The selector fields read back as the processor decodes them: bits 3 and up, bit 2, bits 0-1. */
  lemma SelectorFields(index: nat, ldt: bool, rpl: nat)
    requires rpl <= 3
    ensures Selector(index, ldt, rpl) / DESC_SIZE == index
    ensures HasBit(Selector(index, ldt, rpl), TI) == ldt
    ensures Selector(index, ldt, rpl) % 4 == rpl
    ensures index < 8192 ==> Selector(index, ldt, rpl) < TWO16
  {
  }

  /** int_gate's descriptor: the handler offset split into two 16-bit halves under CS_SELECTOR. */
  function IntGate(offset: u32, dplType: nat): (g: GateDesc)
    ensures g.selector == CS_SELECTOR && g.pDplType == dplType
    ensures g.offsetLow < TWO16 && g.offsetHigh < TWO16
    ensures g.offsetHigh * TWO16 + g.offsetLow == offset
  {
    GateDesc(offset % TWO16, CS_SELECTOR, dplType, offset / TWO16)
  }

  /** int_gate writes the gate into slot `vecNr` of the IDT and nothing else. */
  method SetIntGate(idt: array<GateDesc>, vecNr: nat, offset: u32, dplType: nat)
    requires vecNr < idt.Length
    modifies idt
    ensures idt[..] == old(idt[..])[vecNr := IntGate(offset, dplType)]
  {
    idt[vecNr] := IntGate(offset, dplType);
  }

  /** The segment registers alloc_segments writes. */
  datatype SegRegs = SegRegs(cs: nat, ds: nat, es: nat, ss: nat, fs: nat, gs: nat)

  /** What alloc_segments computes in protected mode: the two LDT entries and the segment registers. */
  datatype Segments = Segments(ldtCs: SegDesc, ldtDs: SegDesc, regs: SegRegs)

  /** The privilege level alloc_segments gives a process. */
  function SegPrivilege(isKernel: bool): (p: nat)
    ensures p <= 3
    ensures isKernel <==> p == TASK_PRIVILEGE
  {
    if isKernel then TASK_PRIVILEGE else USER_PRIVILEGE
  }

  /**
   * The segment registers alloc_segments loads: cs selects the LDT code
   * entry, ds, es, ss, fs and gs the LDT data entry, at the process's
   * privilege level.
   */
  function SegSelectors(isKernel: bool): (r: SegRegs)
    ensures r.cs == Selector(CS_LDT_INDEX, true, SegPrivilege(isKernel))
    ensures r.ds == r.es == r.ss == r.fs == r.gs == Selector(DS_LDT_INDEX, true, SegPrivilege(isKernel))
    ensures r.cs < TWO16 && r.ds < TWO16
  {
    var privilege := SegPrivilege(isKernel);
    var dsSel := DS_LDT_INDEX * DESC_SIZE + TI + privilege;
    SegRegs(CS_LDT_INDEX * DESC_SIZE + TI + privilege, dsSel, dsSel, dsSel, dsSel, dsSel)
  }

  /** `clicks << CLICK_SHIFT` in an unsigned 32-bit word. */
  function ClickBytes(clicks: nat): (b: u32)
    ensures b % PAGE_GRAN_SIZE == 0
  {
    assert TWO32 == (TWO32 / CLICK_SIZE) * CLICK_SIZE;
    (clicks * CLICK_SIZE) % TWO32
  }

  /**
   * alloc_segments in protected mode: a code and a data descriptor over the
   * process's map, at TASK_PRIVILEGE for kernel processes and USER_PRIVILEGE
   * otherwise, and the LDT selectors for them.  The data descriptor spans
   * the data and stack segments; with no separate text segment the code
   * descriptor spans the same bytes.
   */
  function AllocSegments(map_: seq<MemMap>, isKernel: bool): (s: Segments)
    requires |map_| == NR_LOCAL_SEGS
    ensures var privilege := SegPrivilege(isKernel);
      var top := ClickBytes(map_[S].memVir + map_[S].memLen);
      && DescBase(s.ldtCs) == ClickBytes(map_[T].memPhys)
      && DescBase(s.ldtDs) == ClickBytes(map_[D].memPhys)
      && s.ldtCs.access == CodeAccess(privilege) && s.ldtDs.access == DataAccess(privilege)
      && (top != 0 ==> EffectiveLimit(s.ldtDs) == top - 1)
      && (map_[T].memLen == 0 ==> EffectiveLimit(s.ldtCs) == EffectiveLimit(s.ldtDs))
      && (map_[T].memLen != 0 && ClickBytes(map_[T].memLen) != 0 ==> EffectiveLimit(s.ldtCs) == ClickBytes(map_[T].memLen) - 1)
      && s.regs == SegSelectors(isKernel)
  {
    var privilege := SegPrivilege(isKernel);
    var dataBytes := ClickBytes(map_[S].memVir + map_[S].memLen);
    var codeBytes := if map_[T].memLen == 0 then dataBytes else ClickBytes(map_[T].memLen);
    WholePagesAreExact(ClickBytes(map_[D].memPhys), dataBytes, DataAccess(privilege));
    WholePagesAreExact(ClickBytes(map_[T].memPhys), codeBytes, CodeAccess(privilege));
    Segments(InitCodeSeg(ClickBytes(map_[T].memPhys), codeBytes, privilege),
             InitDataSeg(ClickBytes(map_[D].memPhys), dataBytes, privilege),
             SegSelectors(isKernel))
  }

  /**
   * alloc_segments in real mode: cs, ds, es and ss hold the text and data
   * bases in 16-byte units (click_to_hclick), so that seg2phys in real
   * mode reads back the click base; fs and gs keep what `regs0` had.
   */
  function AllocSegmentsReal(map_: seq<MemMap>, regs0: SegRegs): (regs: SegRegs)
    requires |map_| == NR_LOCAL_SEGS
    ensures regs.cs * 16 == map_[T].memPhys * CLICK_SIZE
    ensures regs.ds == regs.es == regs.ss && regs.ds * 16 == map_[D].memPhys * CLICK_SIZE
    ensures regs.fs == regs0.fs && regs.gs == regs0.gs
  {
    var ds := map_[D].memPhys * (CLICK_SIZE / 16);
    regs0.(cs := map_[T].memPhys * (CLICK_SIZE / 16), ds := ds, es := ds, ss := ds)
  }

  /** The GDT entry for a process's LDT: 40 bytes at the LDT's address, kernel privilege, type LDT. */
  function LdtDesc(ldtBase: u32): (d: SegDesc)
    ensures DescBase(d) == ldtBase && d.access == PRESENT + LDT
    ensures EffectiveLimit(d) == LDT_BYTES - 1
  {
    ByteGranular(ldtBase, LDT_BYTES, DataAccess(INTR_PRIVILEGE));
    var d := InitDataSeg(ldtBase, LDT_BYTES, INTR_PRIVILEGE);
    d.(access := PRESENT + LDT)
  }

  /**
   * The LDT loop of prot_init: slot i of the process table gets GDT entry
   * FIRST_LDT_INDEX + i, describing its own LDT, and the selector
   * `ldt_index * DESC_SIZE` for it.  `ldtSel` stands for the p_ldt_sel
   * fields of the slots and `ldtBase` for the addresses of their p_ldt arrays.
   */
  method InitLdtDescriptors(gdt: array<SegDesc>, ldtSel: array<nat>, ldtBase: seq<u32>)
    requires gdt.Length == GDT_SIZE && ldtSel.Length == NR_SLOTS && |ldtBase| == NR_SLOTS
    modifies gdt, ldtSel
    ensures forall i :: 0 <= i < NR_SLOTS ==> ldtSel[i] == Selector(FIRST_LDT_INDEX + i, false, INTR_PRIVILEGE)
    ensures forall i :: 0 <= i < NR_SLOTS ==> gdt[FIRST_LDT_INDEX + i] == LdtDesc(ldtBase[i])
    ensures forall j :: 0 <= j < FIRST_LDT_INDEX ==> gdt[j] == old(gdt[j])
  {
    var i := 0;
    var ldtIndex := FIRST_LDT_INDEX;
    while i < NR_SLOTS
      invariant 0 <= i <= NR_SLOTS && ldtIndex == FIRST_LDT_INDEX + i
      invariant forall k :: 0 <= k < i ==> ldtSel[k] == Selector(FIRST_LDT_INDEX + k, false, INTR_PRIVILEGE)
      invariant forall k :: 0 <= k < i ==> gdt[FIRST_LDT_INDEX + k] == LdtDesc(ldtBase[k])
      invariant forall j :: 0 <= j < FIRST_LDT_INDEX ==> gdt[j] == old(gdt[j])
    {
      gdt[ldtIndex] := LdtDesc(ldtBase[i]);
      ldtSel[i] := ldtIndex * DESC_SIZE;
      i := i + 1;
      ldtIndex := ldtIndex + 1;
    }
  }

  /** Each LDT selector written by the loop selects the descriptor of that slot's own LDT. */
  lemma LdtSelectorsSelectOwnLdt(gdt: seq<SegDesc>, ldtBase: seq<u32>, i: nat)
    requires |gdt| == GDT_SIZE && |ldtBase| == NR_SLOTS && i < NR_SLOTS
    requires gdt[FIRST_LDT_INDEX + i] == LdtDesc(ldtBase[i])
    ensures Seg2Phys(true, gdt, Selector(FIRST_LDT_INDEX + i, false, INTR_PRIVILEGE)) == ldtBase[i]
  {
    SelectorFields(FIRST_LDT_INDEX + i, false, INTR_PRIVILEGE);
  }
}
