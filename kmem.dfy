/**
 * Address translation in the system task (kernel/system.c: umap_local,
 * umap_remote, umap_bios, virtual_copy) and the kernel calls built on it:
 * sys_umap (do_umap.c), sys_virvcopy/sys_physcopy (do_copy.c), the request
 * vectors of sys_virvcopy/sys_physvcopy (do_vcopy.c) and sys_segctl
 * (do_segctl.c).
 *
 * Addresses and byte counts are 32-bit unsigned (vir_bytes, phys_bytes).
 * Memory contents are not modelled: a copy is described by the physical
 * source and destination addresses and the count it hands to phys_copy.
 */
module KMem {
  import opened KConst
  import opened KState
  import opened KIpc
  import opened KProc
  import Protect

  type u32 = Protect.u32

  // ---------------------------------------------------------------------
  // Segment designators of struct vir_addr (<minix/com.h>)

  const SEGMENT_TYPE: int := 0xFF00
  const SEGMENT_INDEX: int := 0x00FF
  const LOCAL_SEG: int := 0x0000
  const REMOTE_SEG: int := 0x0100
  const BIOS_SEG: int := 0x0200
  const PHYS_SEG: int := 0x0400

  /** The BIOS areas umap_bios accepts: the interrupt vectors and BIOS data, and the top of low memory up to 1 MiB. */
  const BIOS_MEM_BEGIN: int := 0
  const BIOS_MEM_END: int := 0x240
  const BASE_MEM_TOP: int := 0x9_0000
  const UPPER_MEM_END: int := 0xF_FFFF

  /** do_vcopy's request buffer: VCOPY_VEC_SIZE entries of struct vir_cp_req (two 12-byte vir_addr and a count). */
  const VCOPY_VEC_SIZE: int := 16
  const CP_REQ_BYTES: int := 28

  /** Real-mode paragraphs. */
  const HCLICK_SIZE: int := 16

  /** segment & SEGMENT_TYPE for a C int in two's complement. */
  function SegType(segment: int): (t: int)
  {
    (segment % 0x1_0000) / 0x100 * 0x100
  }

  /** segment & SEGMENT_INDEX. */
  function SegIndex(segment: int): (i: int)
  {
    segment % 0x100
  }

  /** A 16-bit designator is its type and its index side by side; the type has no index bits. */
  lemma SegmentSplits(segment: int)
    requires 0 <= segment < 0x1_0000
    ensures SegType(segment) + SegIndex(segment) == segment
    ensures SegType(segment) % 0x100 == 0 && 0 <= SegType(segment) <= SEGMENT_TYPE
    ensures 0 <= SegIndex(segment) <= SEGMENT_INDEX
  {
    assert segment == (segment / 0x100) * 0x100 + segment % 0x100;
  }

  /** segment & PHYS_SEG is non-zero: bit 10 of the two's-complement word. */
  predicate PhysBit(segment: int)
  {
    segment % 0x800 >= 0x400
  }

  /** A designator of type PHYS_SEG has the PHYS_SEG bit; LOCAL_SEG, REMOTE_SEG and BIOS_SEG designators do not. */
  lemma PhysBitOfType(segment: int)
    ensures SegType(segment) == PHYS_SEG ==> PhysBit(segment)
    ensures SegType(segment) in {LOCAL_SEG, REMOTE_SEG, BIOS_SEG} ==> !PhysBit(segment)
  {
    var w := segment % 0x1_0000;
    var q := segment / 0x1_0000;
    assert segment == q * 0x1_0000 + w;
    assert segment == (q * 0x20) * 0x800 + w;
    Mod800Shift(segment, q * 0x20, w);
    var hi, lo := w / 0x100, w % 0x100;
    assert w == hi * 0x100 + lo;
    if hi == 4 {
      assert w == 0x400 + lo && w % 0x800 == w;
    } else if hi < 4 {
      assert w < 0x400 && w % 0x800 == w;
    }
  }

  /** Adding whole multiples of 0x800 does not change the remainder. */
  lemma Mod800Shift(x: int, q: int, w: int)
    requires x == q * 0x800 + w
    ensures x % 0x800 == w % 0x800
  {
  }

  // ---------------------------------------------------------------------
  // umap_local

  /** The first click past a segment. */
  function SegEnd(m: MemMap): nat
  {
    m.memVir + m.memLen
  }

  /** The segment umap_local settles on: T stays T, any other index is D or S by the click of the last byte. */
  function LocalSeg(map_: seq<MemMap>, seg: int, lastClick: int): (s: int)
    requires |map_| == NR_LOCAL_SEGS
    ensures s == T || s == D || s == S
  {
    if seg == T then T
    else if lastClick < SegEnd(map_[D]) then D
    else S
  }

  /** vir + bytes in 32-bit unsigned arithmetic. */
  function Add32(a: u32, b: u32): u32
  {
    (a + b) % TWO32
  }

  /**
   * umap_local: the physical address of `bytes` bytes at `vir` in segment
   * `seg` of process p, or 0 when the range is empty, wraps around, or its
   * first or last byte lies past the end of the segment.  The segment base
   * is subtracted in 32-bit arithmetic.
   */
  function UmapLocal(p: Proc, seg: int, vir: u32, bytes: u32): (pa: u32)
    requires |p.memmap| == NR_LOCAL_SEGS
  {
    if bytes == 0 then 0
    else if Add32(vir, bytes) <= vir then 0
    else
      var vc := (vir + bytes - 1) / CLICK_SIZE;
      var m := p.memmap[LocalSeg(p.memmap, seg, vc)];
      if vir / CLICK_SIZE >= SegEnd(m) then 0
      else if vc >= SegEnd(m) then 0
      else (m.memPhys * CLICK_SIZE + vir - m.memVir * CLICK_SIZE) % TWO32
  }

  /** A byte offset lies before the end of a click range exactly when its click does. */
  lemma ClickBelow(x: nat, n: nat)
    ensures x / CLICK_SIZE < n <==> x < n * CLICK_SIZE
  {
    assert x == (x / CLICK_SIZE) * CLICK_SIZE + x % CLICK_SIZE;
  }

  /** The segment chosen for a non-empty range. */
  function ChosenSeg(p: Proc, seg: int, vir: u32, bytes: u32): (m: MemMap)
    requires |p.memmap| == NR_LOCAL_SEGS && bytes > 0
  {
    p.memmap[LocalSeg(p.memmap, seg, (vir + bytes - 1) / CLICK_SIZE)]
  }

  /**
   * What umap_local checks, both ways: a non-zero answer means the range is
   * non-empty, does not wrap, and ends inside the chosen segment; a range
   * that starts and ends inside the chosen segment is translated by the
   * segment's displacement.  The start is only checked against the end of
   * the segment, so a range that begins in the gap below the stack is
   * accepted (the gap case the source comments on).
   */
  lemma UmapLocalChecks(p: Proc, seg: int, vir: u32, bytes: u32)
    requires |p.memmap| == NR_LOCAL_SEGS
    ensures UmapLocal(p, seg, vir, bytes) != 0 ==>
      && bytes > 0 && vir + bytes < TWO32
      && vir + bytes <= SegEnd(ChosenSeg(p, seg, vir, bytes)) * CLICK_SIZE
    ensures bytes > 0 && vir + bytes < TWO32 ==>
      var m := ChosenSeg(p, seg, vir, bytes);
      m.memVir * CLICK_SIZE <= vir && vir + bytes <= SegEnd(m) * CLICK_SIZE ==>
        UmapLocal(p, seg, vir, bytes) == (m.memPhys * CLICK_SIZE + (vir - m.memVir * CLICK_SIZE)) % TWO32
  {
    if bytes > 0 {
      var m := ChosenSeg(p, seg, vir, bytes);
      ClickBelow(vir + bytes - 1, SegEnd(m));
      ClickBelow(vir, SegEnd(m));
    }
  }

  /**
   * A translated range that starts inside its segment lies inside the
   * segment's physical memory, when that memory is below 4 GiB.
   */
  lemma UmapLocalInMemory(p: Proc, seg: int, vir: u32, bytes: u32)
    requires |p.memmap| == NR_LOCAL_SEGS && bytes > 0
    requires (ChosenSeg(p, seg, vir, bytes).memPhys + ChosenSeg(p, seg, vir, bytes).memLen) * CLICK_SIZE <= TWO32
    requires ChosenSeg(p, seg, vir, bytes).memVir * CLICK_SIZE <= vir
    ensures var pa := UmapLocal(p, seg, vir, bytes); var m := ChosenSeg(p, seg, vir, bytes);
      pa != 0 ==> m.memPhys * CLICK_SIZE <= pa && pa + bytes <= (m.memPhys + m.memLen) * CLICK_SIZE
  {
    UmapLocalChecks(p, seg, vir, bytes);
    var m := ChosenSeg(p, seg, vir, bytes);
    if UmapLocal(p, seg, vir, bytes) != 0 {
      var off := vir - m.memVir * CLICK_SIZE;
      assert 0 <= m.memPhys * CLICK_SIZE + off < TWO32;
      assert UmapLocal(p, seg, vir, bytes) == m.memPhys * CLICK_SIZE + off;
    }
  }

  // ---------------------------------------------------------------------
  // umap_remote

  /**
   * umap_remote as written: the end of the range is computed in 32-bit
   * arithmetic, so a range that wraps past 4 GiB passes the length test.
   */
  function UmapRemoteAsWritten(fm: seq<FarMem>, seg: int, vir: u32, bytes: u32): (pa: u32)
    requires |fm| == NR_REMOTE_SEGS
  {
    if bytes == 0 then 0
    else if seg < 0 || seg >= NR_REMOTE_SEGS then 0
    else if !fm[seg].inUse then 0
    else if Add32(vir, bytes) > fm[seg].memLen then 0
    else (fm[seg].memPhys + vir) % TWO32
  }

  /** With far segment 0 at 1 MiB, 4 KiB long, two bytes at 0xFFFFFFFF pass and map to the byte below the segment. */
  lemma RemoteWrapEscapes()
    ensures var fm := [FarMem(true, 0x10_0000, 0x1000), FarMem(false, 0, 0), FarMem(false, 0, 0)];
      && UmapRemoteAsWritten(fm, 0, 0xFFFF_FFFF, 2) == 0xF_FFFF
      && UmapRemoteAsWritten(fm, 0, 0xFFFF_FFFF, 2) < fm[0].memPhys
      && UmapRemote(fm, 0, 0xFFFF_FFFF, 2) == 0
  {
  }

  /** umap_remote with the range end compared in full: a range must fit in the in-use far segment. */
  function UmapRemote(fm: seq<FarMem>, seg: int, vir: u32, bytes: u32): (pa: u32)
    requires |fm| == NR_REMOTE_SEGS
  {
    if bytes == 0 then 0
    else if seg < 0 || seg >= NR_REMOTE_SEGS then 0
    else if !fm[seg].inUse then 0
    else if vir + bytes > fm[seg].memLen then 0
    else (fm[seg].memPhys + vir) % TWO32
  }

  /** A far segment's range, in bytes, fits below 4 GiB. */
  predicate FarFits(f: FarMem)
  {
    f.memPhys + f.memLen <= TWO32
  }

  /**
   * A non-zero answer of umap_remote names an in-use far segment that holds
   * the whole range, and the answer lies inside the segment's memory; any
   * range inside an in-use segment is translated by the segment's base.
   */
  lemma UmapRemoteInSegment(fm: seq<FarMem>, seg: int, vir: u32, bytes: u32)
    requires |fm| == NR_REMOTE_SEGS
    ensures UmapRemote(fm, seg, vir, bytes) != 0 ==>
      && 0 <= seg < NR_REMOTE_SEGS && fm[seg].inUse && 0 < bytes && vir + bytes <= fm[seg].memLen
      && (FarFits(fm[seg]) ==>
            fm[seg].memPhys <= UmapRemote(fm, seg, vir, bytes)
            && UmapRemote(fm, seg, vir, bytes) + bytes <= fm[seg].memPhys + fm[seg].memLen)
    ensures 0 <= seg < NR_REMOTE_SEGS && fm[seg].inUse && 0 < bytes && vir + bytes <= fm[seg].memLen ==>
      UmapRemote(fm, seg, vir, bytes) == (fm[seg].memPhys + vir) % TWO32
  {
  }

  // ---------------------------------------------------------------------
  // umap_bios

  /** umap_bios as written: the range end is a 32-bit sum, so a range that wraps past 4 GiB ends "below" 0x240. */
  function UmapBiosAsWritten(vir: u32, bytes: u32): (pa: u32)
  {
    if vir >= BIOS_MEM_BEGIN && Add32(vir, bytes) <= BIOS_MEM_END then vir
    else if vir >= BASE_MEM_TOP && Add32(vir, bytes) <= UPPER_MEM_END then vir
    else 0
  }

  /** 32 bytes at 0xFFFFFFF0 pass as a BIOS range and are returned as a physical address 4 GiB up. */
  lemma BiosWrapEscapes()
    ensures UmapBiosAsWritten(0xFFFF_FFF0, 0x20) == 0xFFFF_FFF0
    ensures UmapBios(0xFFFF_FFF0, 0x20) == 0
  {
  }

  /** umap_bios with the range end compared in full. */
  function UmapBios(vir: u32, bytes: u32): (pa: u32)
  {
    if vir >= BIOS_MEM_BEGIN && vir + bytes <= BIOS_MEM_END then vir
    else if vir >= BASE_MEM_TOP && vir + bytes <= UPPER_MEM_END then vir
    else 0
  }

  /** The range lies in one of the two BIOS areas. */
  predicate InBiosArea(vir: int, bytes: int)
  {
    || (BIOS_MEM_BEGIN <= vir && vir + bytes <= BIOS_MEM_END)
    || (BASE_MEM_TOP <= vir && vir + bytes <= UPPER_MEM_END)
  }

  /** BIOS addresses are physical addresses, and only ranges inside the two BIOS areas are accepted. */
  lemma UmapBiosAreas(vir: u32, bytes: u32)
    ensures UmapBios(vir, bytes) != 0 ==> UmapBios(vir, bytes) == vir && InBiosArea(vir, bytes)
    ensures InBiosArea(vir, bytes) ==> UmapBios(vir, bytes) == vir
    ensures UmapBios(vir, bytes) <= UPPER_MEM_END
  {
  }

  // ---------------------------------------------------------------------
  // virtual_copy

  /** struct vir_addr: a process, a segment designator and an offset. */
  datatype VirAddr = VirAddr(procNr: int32, segment: int, offset: u32)

  /** The outcome of translating one address: an unknown segment type, or a physical address (0 when the translation failed). */
  datatype Mapping = NoSuchSeg | At(pa: u32)

  /** The tables hold what the translations read: three local segments per slot, a privilege record per slot, three far segments per record. */
  predicate TablesFit(t: seq<Proc>, v: seq<Priv>)
  {
    && |t| == NR_SLOTS && |v| == NR_SYS_PROCS
    && (forall i :: 0 <= i < |t| ==> |t[i].memmap| == NR_LOCAL_SEGS && t[i].privId < |v|)
    && (forall j :: 0 <= j < |v| ==> |v[j].farmem| == NR_REMOTE_SEGS)
  }

  /** The kernel invariant provides what the translations read. */
  lemma ValidTablesFit(k: Kernel)
    requires k.Valid()
    ensures TablesFit(k.proc[..], k.priv[..])
  {
    var s := k.Snap();
    forall i | 0 <= i < NR_SLOTS ensures |s.procs[i].memmap| == NR_LOCAL_SEGS && s.procs[i].privId < NR_SYS_PROCS {
      assert SlotOk(s.procs[i], i);
    }
    forall j | 0 <= j < NR_SYS_PROCS ensures |s.privs[j].farmem| == NR_REMOTE_SEGS {
      assert PrivOk(s.privs[j], j);
    }
  }

  /** Local and remote addresses name a process whose table entry is read; BIOS and physical ones do not. */
  predicate AddrOk(a: VirAddr)
  {
    SegType(a.segment) == LOCAL_SEG || SegType(a.segment) == REMOTE_SEG ==> -NR_TASKS <= a.procNr < NR_PROCS
  }

  /** The translation of one address in virtual_copy's switch. */
  function Map(t: seq<Proc>, v: seq<Priv>, a: VirAddr, bytes: u32): Mapping
    requires TablesFit(t, v) && AddrOk(a)
  {
    var ty := SegType(a.segment);
    if ty == LOCAL_SEG then At(UmapLocal(t[ProcSlot(a.procNr)], SegIndex(a.segment), a.offset, bytes))
    else if ty == REMOTE_SEG then At(UmapRemote(v[t[ProcSlot(a.procNr)].privId].farmem, SegIndex(a.segment), a.offset, bytes))
    else if ty == BIOS_SEG then At(UmapBios(a.offset, bytes))
    else if ty == PHYS_SEG then At(a.offset)
    else NoSuchSeg
  }

  /** How one translation ends virtual_copy: EINVAL for an unknown type, EFAULT for address 0 unless the designator is exactly PHYS_SEG. */
  function MapStatus(m: Mapping, a: VirAddr): int
  {
    if m.NoSuchSeg? then EINVAL
    else if m.pa == 0 && a.segment != PHYS_SEG then EFAULT
    else OK
  }

  /** The reply of virtual_copy: EDOM for no bytes, then the source's status, then the destination's. */
  function CopyReply(t: seq<Proc>, v: seq<Priv>, src: VirAddr, dst: VirAddr, bytes: u32): int
    requires TablesFit(t, v) && AddrOk(src) && AddrOk(dst)
  {
    if bytes == 0 then EDOM
    else if MapStatus(Map(t, v, src, bytes), src) != OK then MapStatus(Map(t, v, src, bytes), src)
    else MapStatus(Map(t, v, dst, bytes), dst)
  }

  /**
   * virtual_copy: the source and then the destination are translated; the
   * first failure is the reply, and on OK the physical addresses are the
   * ones phys_copy receives.
   */
  method VirtualCopy(t: seq<Proc>, v: seq<Priv>, src: VirAddr, dst: VirAddr, bytes: u32) returns (r: int, srcPa: u32, dstPa: u32)
    requires TablesFit(t, v) && AddrOk(src) && AddrOk(dst)
    ensures r == CopyReply(t, v, src, dst, bytes)
    ensures r == OK ==> Map(t, v, src, bytes) == At(srcPa) && Map(t, v, dst, bytes) == At(dstPa)
  {
    if bytes == 0 {
      return EDOM, 0, 0;
    }
    var addr := [src, dst];
    var phys: seq<u32> := [0, 0];
    for i := 0 to 2
      invariant |phys| == 2
      invariant forall j :: 0 <= j < i ==> MapStatus(Map(t, v, addr[j], bytes), addr[j]) == OK && Map(t, v, addr[j], bytes) == At(phys[j])
    {
      var m := Map(t, v, addr[i], bytes);
      if MapStatus(m, addr[i]) != OK {
        assert i == 1 ==> MapStatus(Map(t, v, addr[0], bytes), addr[0]) == OK;
        return MapStatus(m, addr[i]), 0, 0;
      }
      phys := phys[i := m.pa];
    }
    return OK, phys[0], phys[1];
  }

  /** Where a translated address points, by segment type: inside the chosen local segment, inside the far segment, in a BIOS area, or the offset itself. */
  ghost predicate Inside(t: seq<Proc>, v: seq<Priv>, a: VirAddr, bytes: u32, pa: u32)
    requires TablesFit(t, v) && AddrOk(a)
  {
    var ty := SegType(a.segment);
    && (ty == LOCAL_SEG ==>
          bytes > 0 && a.offset + bytes <= SegEnd(ChosenSeg(t[ProcSlot(a.procNr)], SegIndex(a.segment), a.offset, bytes)) * CLICK_SIZE)
    && (ty == REMOTE_SEG ==>
          var fm := v[t[ProcSlot(a.procNr)].privId].farmem;
          0 <= SegIndex(a.segment) < NR_REMOTE_SEGS && fm[SegIndex(a.segment)].inUse
          && a.offset + bytes <= fm[SegIndex(a.segment)].memLen && pa == (fm[SegIndex(a.segment)].memPhys + a.offset) % TWO32)
    && (ty == BIOS_SEG ==> pa == a.offset && InBiosArea(a.offset, bytes))
    && (ty == PHYS_SEG ==> pa == a.offset)
  }

  /** After an OK virtual_copy both ranges lie where their designators say. */
  lemma CopyOkInside(t: seq<Proc>, v: seq<Priv>, src: VirAddr, dst: VirAddr, bytes: u32, srcPa: u32, dstPa: u32)
    requires TablesFit(t, v) && AddrOk(src) && AddrOk(dst)
    requires CopyReply(t, v, src, dst, bytes) == OK
    requires Map(t, v, src, bytes) == At(srcPa) && Map(t, v, dst, bytes) == At(dstPa)
    ensures Inside(t, v, src, bytes, srcPa) && Inside(t, v, dst, bytes, dstPa)
  {
    MapInside(t, v, src, bytes, srcPa);
    MapInside(t, v, dst, bytes, dstPa);
  }

  /** One address: a successful translation lies where its designator says. */
  lemma MapInside(t: seq<Proc>, v: seq<Priv>, a: VirAddr, bytes: u32, pa: u32)
    requires TablesFit(t, v) && AddrOk(a) && bytes > 0
    requires Map(t, v, a, bytes) == At(pa) && MapStatus(At(pa), a) == OK
    ensures Inside(t, v, a, bytes, pa)
  {
    var ty := SegType(a.segment);
    if ty == LOCAL_SEG {
      PhysBitOfType(a.segment);
      UmapLocalChecks(t[ProcSlot(a.procNr)], SegIndex(a.segment), a.offset, bytes);
    } else if ty == REMOTE_SEG {
      UmapRemoteInSegment(v[t[ProcSlot(a.procNr)].privId].farmem, SegIndex(a.segment), a.offset, bytes);
    } else if ty == BIOS_SEG {
      UmapBiosAreas(a.offset, bytes);
    }
  }

  // ---------------------------------------------------------------------
  // sys_umap

  /** SELF stands for the caller. */
  function Resolve(caller: int32, n: int32): int32
  {
    if n == SELF then caller else n
  }

  /**
   * do_umap: the process (SELF for the caller) must be a valid process
   * number and the segment type LOCAL_SEG, REMOTE_SEG or BIOS_SEG, else
   * EINVAL; otherwise the translation is returned, with EFAULT when it is 0.
   */
  method DoUmap(t: seq<Proc>, v: seq<Priv>, caller: int32, procNr: int32, segment: int, offset: u32, count: int32) returns (r: int, pa: u32)
    requires TablesFit(t, v)
    ensures var n := Resolve(caller, procNr); var ty := SegType(segment);
      r == EINVAL <==> !IsOkProcN(n) || ty !in {LOCAL_SEG, REMOTE_SEG, BIOS_SEG}
    ensures r != EINVAL ==>
      var a := VirAddr(Resolve(caller, procNr), segment, offset);
      && AddrOk(a) && Map(t, v, a, count % TWO32) == At(pa)
      && (r == OK <==> pa != 0) && (r != OK ==> r == EFAULT)
  {
    var n := Resolve(caller, procNr);
    if !IsOkProcN(n) {
      return EINVAL, 0;
    }
    var bytes: u32 := count % TWO32;
    var ty := SegType(segment);
    var x := ProcSlot(n);
    if ty == LOCAL_SEG {
      pa := UmapLocal(t[x], SegIndex(segment), offset, bytes);
    } else if ty == REMOTE_SEG {
      pa := UmapRemote(v[t[x].privId].farmem, SegIndex(segment), offset, bytes);
    } else if ty == BIOS_SEG {
      pa := UmapBios(offset, bytes);
    } else {
      return EINVAL, 0;
    }
    r := if pa == 0 then EFAULT else OK;
  }

  // ---------------------------------------------------------------------
  // sys_virvcopy / sys_physcopy

  /**
   * The per-address checks of do_copy: a process number (after SELF) that
   * is not valid is EINVAL unless the designator is exactly PHYS_SEG; a
   * designator with the PHYS_SEG bit needs SYS_PHYSCOPY, else EPERM.
   */
  function AddrCheck(a: VirAddr, physCall: bool): int
  {
    if !IsOkProcN(a.procNr) && a.segment != PHYS_SEG then EINVAL
    else if PhysBit(a.segment) && !physCall then EPERM
    else OK
  }

  /** An address that passes do_copy's checks is safe for virtual_copy, and only SYS_PHYSCOPY reaches physical memory. */
  lemma AddrCheckOk(a: VirAddr, physCall: bool)
    requires AddrCheck(a, physCall) == OK
    ensures AddrOk(a)
    ensures SegType(a.segment) == PHYS_SEG ==> physCall
  {
    PhysBitOfType(a.segment);
    if a.segment == PHYS_SEG {
      assert SegType(a.segment) == PHYS_SEG;
    }
  }

  /** The reply of do_copy: the source's and then the destination's check, then virtual_copy. */
  function CopyCallReply(t: seq<Proc>, v: seq<Priv>, src: VirAddr, dst: VirAddr, bytes: u32, physCall: bool): int
    requires TablesFit(t, v)
  {
    if AddrCheck(src, physCall) != OK then AddrCheck(src, physCall)
    else if AddrCheck(dst, physCall) != OK then AddrCheck(dst, physCall)
    else
      AddrCheckOk(src, physCall);
      AddrCheckOk(dst, physCall);
      CopyReply(t, v, src, dst, bytes)
  }

  /**
   * do_copy: SELF is replaced by the caller in both addresses, each address
   * is checked in turn, and virtual_copy does the rest.  phys_bytes and
   * vir_bytes are both 32 bits here, so the E2BIG test never fires.
   */
  method DoCopy(t: seq<Proc>, v: seq<Priv>, caller: int32, src: VirAddr, dst: VirAddr, bytes: u32, physCall: bool)
    returns (r: int, srcPa: u32, dstPa: u32)
    requires TablesFit(t, v)
    ensures var s, d := src.(procNr := Resolve(caller, src.procNr)), dst.(procNr := Resolve(caller, dst.procNr));
      && r == CopyCallReply(t, v, s, d, bytes, physCall)
      && (r == OK ==> AddrOk(s) && AddrOk(d) && Map(t, v, s, bytes) == At(srcPa) && Map(t, v, d, bytes) == At(dstPa))
  {
    var addr := [src.(procNr := Resolve(caller, src.procNr)), dst.(procNr := Resolve(caller, dst.procNr))];
    for i := 0 to 2
      invariant forall j :: 0 <= j < i ==> AddrCheck(addr[j], physCall) == OK
    {
      var c := AddrCheck(addr[i], physCall);
      if c != OK {
        assert i == 1 ==> AddrCheck(addr[0], physCall) == OK;
        return c, 0, 0;
      }
    }
    AddrCheckOk(addr[0], physCall);
    AddrCheckOk(addr[1], physCall);
    r, srcPa, dstPa := VirtualCopy(t, v, addr[0], addr[1], bytes);
  }

  // ---------------------------------------------------------------------
  // Vectors of copy requests (do_vcopy)

  /** struct vir_cp_req. */
  datatype CpReq = CpReq(src: VirAddr, dst: VirAddr, count: u32)

  /** One phys_copy: from, to, how many bytes. */
  datatype Copy = Copy(from: u32, to: u32, count: u32)

  /** The length test of do_vcopy as written: the count is compared as a signed int, so a negative count passes. */
  predicate VecSizeOkAsWritten(nrReq: int32)
  {
    nrReq <= VCOPY_VEC_SIZE
  }

  /** The number of bytes do_vcopy copies into its request buffer: nr_req * sizeof(struct vir_cp_req) in 32 bits. */
  function VecBytes(nrReq: int32): u32
  {
    (nrReq * CP_REQ_BYTES) % TWO32
  }

  /** A negative count passes the length test and makes the buffer copy 2800 bytes into a 448-byte buffer. */
  lemma NegativeVecSizeOverruns()
    ensures var n: int32 := -0x4000_0000 + 100;
      && VecSizeOkAsWritten(n) && VecBytes(n) == 2800 && VecBytes(n) > VCOPY_VEC_SIZE * CP_REQ_BYTES
  {
  }

  /** The length test of do_vcopy with the unsigned comparison its cast intends. */
  predicate VecSizeOk(nrReq: int32)
  {
    0 <= nrReq <= VCOPY_VEC_SIZE
  }

  /** With the corrected test the buffer copy never exceeds the request buffer. */
  lemma VecSizeOkFits(nrReq: int32)
    requires VecSizeOk(nrReq)
    ensures VecBytes(nrReq) == nrReq * CP_REQ_BYTES <= VCOPY_VEC_SIZE * CP_REQ_BYTES
  {
  }

  /** The check do_vcopy makes of each request as written: only the PHYS_SEG bit. */
  function ReqCheckAsWritten(q: CpReq, physCall: bool): int
  {
    if (PhysBit(q.src.segment) || PhysBit(q.dst.segment)) && !physCall then EPERM else OK
  }

  /** A request for a local segment of process 1000 passes do_vcopy's check, though virtual_copy would index proc[] with it. */
  lemma VcopyLetsBadProcThrough()
    ensures var q := CpReq(VirAddr(1000, LOCAL_SEG, 0), VirAddr(0, LOCAL_SEG, 0), 1);
      ReqCheckAsWritten(q, false) == OK && !AddrOk(q.src)
  {
    PhysBitOfType(LOCAL_SEG);
  }

  /** The corrected request check: the PHYS_SEG bit test, then do_copy's process-number test for both addresses. */
  function ReqCheck(q: CpReq, physCall: bool): (r: int)
    ensures r == OK ==> AddrOk(q.src) && AddrOk(q.dst)
  {
    if ReqCheckAsWritten(q, physCall) != OK then EPERM
    else if AddrCheck(q.src, true) != OK then AddrCheck(q.src, true)
    else if AddrCheck(q.dst, true) != OK then AddrCheck(q.dst, true)
    else
      AddrCheckOk(q.src, true);
      AddrCheckOk(q.dst, true);
      OK
  }

  /** The reply to one request: its check, then virtual_copy. */
  function ReqReply(t: seq<Proc>, v: seq<Priv>, q: CpReq, physCall: bool): int
    requires TablesFit(t, v)
  {
    if ReqCheck(q, physCall) != OK then ReqCheck(q, physCall)
    else CopyReply(t, v, q.src, q.dst, q.count)
  }

  /** The phys_copy of a request that succeeded. */
  function ReqCopy(t: seq<Proc>, v: seq<Priv>, q: CpReq): Copy
    requires TablesFit(t, v) && AddrOk(q.src) && AddrOk(q.dst)
  {
    var s, d := Map(t, v, q.src, q.count), Map(t, v, q.dst, q.count);
    Copy(if s.At? then s.pa else 0, if d.At? then d.pa else 0, q.count)
  }

  /**
   * do_vcopy, with the corrected tests: the count must be 0..VCOPY_VEC_SIZE
   * (EINVAL), the caller's vector must map (EFAULT); then the requests in
   * `vec` (the buffer's contents after the copy in) are carried out in order
   * until one fails, whose reply is returned.  nrOk is VCP_NR_OK, the
   * number of copies done.
   */
  method DoVcopy(t: seq<Proc>, v: seq<Priv>, caller: int32, nrReq: int32, vecAddr: u32, vec: seq<CpReq>, physCall: bool)
    returns (r: int, nrOk: nat, copies: seq<Copy>)
    requires TablesFit(t, v) && IsOkProcN(caller) && |vec| == VCOPY_VEC_SIZE
    ensures !VecSizeOk(nrReq) ==> r == EINVAL && nrOk == 0 && copies == []
    ensures VecSizeOk(nrReq) && UmapLocal(t[ProcSlot(caller)], D, vecAddr, VecBytes(nrReq)) == 0 ==> r == EFAULT && copies == []
    ensures nrOk == |copies| && nrOk <= |vec|
    ensures forall j :: 0 <= j < nrOk ==>
      ReqReply(t, v, vec[j], physCall) == OK && AddrOk(vec[j].src) && AddrOk(vec[j].dst) && copies[j] == ReqCopy(t, v, vec[j])
    ensures r == OK ==> VecSizeOk(nrReq) && nrOk == nrReq
    ensures r != OK && VecSizeOk(nrReq) && UmapLocal(t[ProcSlot(caller)], D, vecAddr, VecBytes(nrReq)) != 0 ==>
      nrOk < nrReq && r == ReqReply(t, v, vec[nrOk], physCall)
  {
    nrOk := 0;
    copies := [];
    if !VecSizeOk(nrReq) {
      return EINVAL, nrOk, copies;
    }
    var callerPa := UmapLocal(t[ProcSlot(caller)], D, vecAddr, VecBytes(nrReq));
    if callerPa == 0 {
      return EFAULT, nrOk, copies;
    }
    var i := 0;
    while i < nrReq
      invariant 0 <= i <= nrReq && nrOk == i == |copies|
      invariant forall j :: 0 <= j < i ==>
        ReqReply(t, v, vec[j], physCall) == OK && AddrOk(vec[j].src) && AddrOk(vec[j].dst) && copies[j] == ReqCopy(t, v, vec[j])
    {
      var q := vec[i];
      var c := ReqCheck(q, physCall);
      if c != OK {
        return c, nrOk, copies;
      }
      var s, from, to := VirtualCopy(t, v, q.src, q.dst, q.count);
      if s != OK {
        return s, nrOk, copies;
      }
      copies := copies + [Copy(from, to, q.count)];
      nrOk := nrOk + 1;
      i := i + 1;
    }
    r := OK;
  }

  // ---------------------------------------------------------------------
  // sys_segctl

  /** The first far segment not in use, if any. */
  function FreeFar(fm: seq<FarMem>): (i: Option<nat>)
    ensures i.Some? ==> i.value < |fm| && !fm[i.value].inUse && forall j :: 0 <= j < i.value ==> fm[j].inUse
    ensures i.None? ==> forall j :: 0 <= j < |fm| ==> fm[j].inUse
  {
    if fm == [] then None
    else if !fm[0].inUse then Some(0)
    else
      var r := FreeFar(fm[1..]);
      if r.Some? then Some(r.value + 1) else None
  }

  /** The selector and offset sys_segctl reports, and the LDT descriptor it fills in (none in real mode). */
  datatype SegReply = SegReply(index: int, selector: nat, offset: nat, ldt: Option<Protect.SegDesc>)

  /**
   * The addressing do_segctl sets up for far segment i at phys: in real
   * mode a paragraph selector (a 16-bit word) and the rest as offset; in
   * protected mode LDT entry EXTRA_LDT_INDEX + i, with a byte-exact limit
   * below BYTE_GRAN_MAX and otherwise a 4 GiB segment from phys rounded
   * down to 64 KiB, the rest being the offset.
   */
  function SegSetup(i: nat, phys: u32, size: u32, protected: bool): (g: SegReply)
  {
    if !protected then
      SegReply(i + REMOTE_SEG, (phys / HCLICK_SIZE) % Protect.TWO16, phys % HCLICK_SIZE, None)
    else
      var sel := Protect.Selector(Protect.EXTRA_LDT_INDEX + i, true, Protect.USER_PRIVILEGE);
      if size < Protect.BYTE_GRAN_MAX then
        SegReply(i + REMOTE_SEG, sel, 0, Some(Protect.InitDataSeg(phys, size, Protect.USER_PRIVILEGE)))
      else
        SegReply(i + REMOTE_SEG, sel, phys % 0x1_0000, Some(Protect.InitDataSeg(phys - phys % 0x1_0000, 0, Protect.USER_PRIVILEGE)))
  }

  /**
   * The selector and offset reach phys: the descriptor's base plus the
   * offset is phys (the paragraph times 16 plus the offset in real mode,
   * below 1 MiB); the selector picks LDT entry EXTRA_LDT_INDEX + i at user
   * privilege; a byte-granular limit is size - 1, a large segment's limit
   * the whole 4 GiB.
   */
  lemma SegSetupReaches(i: nat, phys: u32, size: u32, protected: bool)
    requires i < NR_REMOTE_SEGS
    ensures var g := SegSetup(i, phys, size, protected);
      && SegType(g.index) == REMOTE_SEG && SegIndex(g.index) == i
      && (!protected && phys < 0x10_0000 ==> g.selector * HCLICK_SIZE + g.offset == phys)
      && (protected ==>
            && g.ldt.Some? && Protect.DescBase(g.ldt.value) + g.offset == phys
            && g.selector / Protect.DESC_SIZE == Protect.EXTRA_LDT_INDEX + i && g.selector % 4 == Protect.USER_PRIVILEGE
            && (0 < size < Protect.BYTE_GRAN_MAX ==> Protect.EffectiveLimit(g.ldt.value) == size - 1)
            && (size >= Protect.BYTE_GRAN_MAX ==> Protect.EffectiveLimit(g.ldt.value) == TWO32 - 1))
  {
    var g := SegSetup(i, phys, size, protected);
    if protected {
      Protect.SelectorFields(Protect.EXTRA_LDT_INDEX + i, true, Protect.USER_PRIVILEGE);
      if size < Protect.BYTE_GRAN_MAX {
        if size > 0 {
          Protect.ByteGranular(phys, size, Protect.DataAccess(Protect.USER_PRIVILEGE));
        }
      } else {
        Protect.ZeroSizeIsFourGiB(phys - phys % 0x1_0000, Protect.DataAccess(Protect.USER_PRIVILEGE));
      }
    }
  }

  /**
   * do_segctl for caller src: the caller's first free far segment records
   * [phys, phys + size) and is marked in use, and its addressing is
   * returned (SegSetup); with every far segment in use the reply is ENOSPC
   * and nothing changes.
   */
  method DoSegctl(k: Kernel, src: int, phys: u32, size: u32, protected: bool) returns (r: int, g: SegReply)
    requires k.Valid() && -NR_TASKS <= src < NR_PROCS
    modifies k.priv
    ensures k.Valid()
    ensures var id := old(k.proc[ProcSlot(src)].privId); var fm := old(k.priv[id].farmem);
      && (r == ENOSPC <==> FreeFar(fm).None?)
      && (r == ENOSPC ==> k.priv[..] == old(k.priv[..]))
      && (r != ENOSPC ==>
            && r == OK
            && g == SegSetup(FreeFar(fm).value, phys, size, protected)
            && k.priv[..] == old(k.priv[..])[id := old(k.priv[id]).(farmem := fm[FreeFar(fm).value := FarMem(true, phys, size)])])
  {
    var x := ProcSlot(src);
    assert SlotOk(k.Snap().procs[x], x);
    var id := k.proc[x].privId;
    var fm := k.priv[id].farmem;
    assert PrivOk(k.Snap().privs[id], id);
    var i := 0;
    while i < NR_REMOTE_SEGS && fm[i].inUse
      invariant 0 <= i <= NR_REMOTE_SEGS && forall j :: 0 <= j < i ==> fm[j].inUse
    {
      i := i + 1;
    }
    FreeFarFirst(fm, i);
    if i == NR_REMOTE_SEGS {
      return ENOSPC, SegReply(-1, 0, 0, None);
    }
    var v := k.priv[id].(farmem := fm[i := FarMem(true, phys, size)]);
    PrivUpdateInv(k.Snap(), k.G(), None, id, v);
    k.priv[id] := v;
    r, g := OK, SegSetup(i, phys, size, protected);
  }

  /** The search of do_segctl finds FreeFar's answer. */
  lemma {:induction false} FreeFarFirst(fm: seq<FarMem>, i: nat)
    requires i <= |fm| && (forall j :: 0 <= j < i ==> fm[j].inUse) && (i < |fm| ==> !fm[i].inUse)
    ensures i == |fm| <==> FreeFar(fm).None?
    ensures i < |fm| ==> FreeFar(fm) == Some(i)
  {
    if fm != [] && i > 0 {
      FreeFarFirst(fm[1..], i - 1);
    }
  }

  /** After sys_segctl, the new far segment maps every range inside it by its base. */
  lemma SegctlThenUmap(fm: seq<FarMem>, i: nat, phys: u32, size: u32, vir: u32, bytes: u32)
    requires |fm| == NR_REMOTE_SEGS && i < NR_REMOTE_SEGS && 0 < bytes && vir + bytes <= size
    ensures UmapRemote(fm[i := FarMem(true, phys, size)], i, vir, bytes) == (phys + vir) % TWO32
  {
    UmapRemoteInSegment(fm[i := FarMem(true, phys, size)], i, vir, bytes);
  }
}
