/**
 * The process manager's hole table (servers/pm/alloc.c): a fixed table of
 * NR_HOLES entries threaded into two singly linked lists, the holes in
 * address order (hole_head) and the entries not in use (free_slots).
 *
 * The table is a `HoleTable` object whose methods update the entries in
 * place as the C code does.  Each method is proved to turn the hole
 * sequence it describes (`blocks`) into what module PmHoles defines for
 * that operation, and PmHoles proves what those definitions mean.
 */
module PmAlloc {
  import opened KConst
  import opened Seqs
  import opened Links
  import opened PmHoles

  /** NR_HOLES, 2 * NR_PROCS entries. */
  const NR_HOLES: nat := 128

  /** One entry of the table: h_next, h_base, h_len. */
  datatype Hole = Hole(next: Option<nat>, base: nat, len: nat)

  /** The h_next fields of a table. */
  function Nexts(h: seq<Hole>): (r: seq<Option<nat>>)
    ensures |r| == |h| && forall s :: 0 <= s < |h| ==> r[s] == h[s].next
  {
    seq(|h|, s requires 0 <= s < |h| => h[s].next)
  }

  /** Every slot of l is an entry of a table of n entries. */
  predicate InTable(l: seq<nat>, n: nat)
  {
    forall i :: 0 <= i < |l| ==> l[i] < n
  }

  /** The blocks described by the entries l of table h, in list order. */
  function Extents(h: seq<Hole>, l: seq<nat>): (r: seq<Extent>)
    requires InTable(l, |h|)
    ensures |r| == |l| && forall i :: 0 <= i < |l| ==> r[i] == Extent(h[l[i]].base, h[l[i]].len)
  {
    seq(|l|, i requires 0 <= i < |l| => Extent(h[l[i]].base, h[l[i]].len))
  }

  /** Writing an entry changes one link. */
  lemma NextsSet(h: seq<Hole>, s: nat, v: Hole)
    requires s < |h|
    ensures Nexts(h[s := v]) == Nexts(h)[s := v.next]
  {
  }

  /** Writing an entry that is not on a list leaves its blocks as they were. */
  lemma ExtentsFrame(h: seq<Hole>, l: seq<nat>, s: nat, v: Hole)
    requires InTable(l, |h|) && s < |h| && s !in l
    ensures Extents(h[s := v], l) == Extents(h, l)
  {
    assert forall i :: 0 <= i < |l| ==> l[i] != s;
  }

  /** Relinking an entry leaves the blocks of every list as they were. */
  lemma ExtentsRelink(h: seq<Hole>, l: seq<nat>, s: nat, n: Option<nat>)
    requires InTable(l, |h|) && s < |h|
    ensures Extents(h[s := h[s].(next := n)], l) == Extents(h, l)
  {
  }

  /** Rewriting the block of the entry at position p of a list. */
  lemma ExtentsSet(h: seq<Hole>, l: seq<nat>, p: nat, v: Hole)
    requires InTable(l, |h|) && NoDup(l) && p < |l|
    ensures Extents(h[l[p] := v], l) == Extents(h, l)[p := Extent(v.base, v.len)]
  {
    NoDupPairs(l);
  }

  lemma ExtentsRemove(h: seq<Hole>, l: seq<nat>, p: nat)
    requires InTable(l, |h|) && p < |l|
    ensures InTable(Remove(l, p), |h|)
    ensures Extents(h, Remove(l, p)) == Remove(Extents(h, l), p)
  {
  }

  lemma ExtentsInsert(h: seq<Hole>, l: seq<nat>, p: nat, x: nat)
    requires InTable(l, |h|) && p <= |l| && x < |h|
    ensures InTable(l[..p] + [x] + l[p..], |h|)
    ensures Extents(h, l[..p] + [x] + l[p..]) == Inserted(Extents(h, l), p, Extent(h[x].base, h[x].len))
  {
    var l' := l[..p] + [x] + l[p..];
    assert forall i :: 0 <= i < p ==> l'[i] == l[i];
    assert forall i :: p < i < |l'| ==> l'[i] == l[i - 1];
  }

  /** The scan stops at p when every hole before p was passed over and hole p (if any) stops it. */
  lemma ScanAt(ext: seq<Extent>, clicks: nat, p: nat)
    requires p <= |ext|
    requires forall j :: 0 <= j < p ==> ext[j].base < SWAP_BASE && ext[j].len < clicks
    requires p < |ext| ==> ext[p].base >= SWAP_BASE || ext[p].len >= clicks
    ensures Scan(ext, clicks) == p
  {
  }

  /** free_mem of a block whose place in the list is position p. */
  lemma FreedAt(ext: seq<Extent>, base: nat, clicks: nat, p: nat)
    requires clicks > 0 && p <= |ext|
    requires forall j :: 0 <= j < p ==> ext[j].base < base
    requires p < |ext| ==> base <= ext[p].base
    ensures Freed(ext, base, clicks) == MergeAt(Inserted(ext, p, Extent(base, clicks)), if p == 0 then 0 else p - 1)
  {
    InsertPosAt(ext, base, p);
  }

  /** What a successful allocation that stops at hole p does. */
  lemma AllocatedAt(ext: seq<Extent>, clicks: nat, p: nat)
    requires p < |ext| && ext[p].base < SWAP_BASE && ext[p].len >= clicks
    requires forall j :: 0 <= j < p ==> ext[j].base < SWAP_BASE && ext[j].len < clicks
    ensures Allocated(ext, clicks) == (Cut(ext, p, clicks), ext[p].base)
  {
    ScanAt(ext, clicks, p);
  }

  /** An allocation whose scan reaches the end or a hole at or above swap_base fails. */
  lemma NotAllocated(ext: seq<Extent>, clicks: nat, p: nat)
    requires p <= |ext| && (p < |ext| ==> ext[p].base >= SWAP_BASE)
    requires forall j :: 0 <= j < p ==> ext[j].base < SWAP_BASE && ext[j].len < clicks
    ensures Allocated(ext, clicks) == (ext, NO_MEM)
  {
    ScanAt(ext, clicks, p);
  }

  /** Hole p with `clicks` clicks cut off its low end, dropped when nothing is left. */
  function Cut(ext: seq<Extent>, p: nat, clicks: nat): seq<Extent>
    requires p < |ext| && clicks <= ext[p].len
  {
    var rest := Extent(ext[p].base + clicks, ext[p].len - clicks);
    if rest.len == 0 then Remove(ext, p) else ext[p := rest]
  }

  /** Cut is rewriting hole p, then dropping it when it became empty. */
  lemma CutSteps(ext: seq<Extent>, p: nat, clicks: nat, rest: Extent)
    requires p < |ext| && clicks <= ext[p].len && rest == Extent(ext[p].base + clicks, ext[p].len - clicks)
    ensures rest.len == 0 ==> Cut(ext, p, clicks) == Remove(ext[p := rest], p)
    ensures rest.len > 0 ==> Cut(ext, p, clicks) == ext[p := rest]
  {
    RemoveUpdate(ext, p, rest);
  }

  /** The insertion point is p when every hole before p starts below base and hole p (if any) does not. */
  lemma InsertPosAt(ext: seq<Extent>, base: nat, p: nat)
    requires p <= |ext|
    requires forall j :: 0 <= j < p ==> ext[j].base < base
    requires p < |ext| ==> base <= ext[p].base
    ensures InsertPos(ext, base) == p
  {
  }

  /**
   * The invariant of the table as a value: the hole list `l` starts at
   * `head`, the free-slot list `sp` at `free`, both are well formed, they
   * share no entry and between them they hold every entry.
   */
  ghost predicate TableOk(h: seq<Hole>, head: Option<nat>, free: Option<nat>, l: seq<nat>, sp: seq<nat>)
  {
    && |h| == NR_HOLES
    && IsList(Nexts(h), head, l)
    && IsList(Nexts(h), free, sp)
    && Disjoint(l, sp)
    && |l| + |sp| == NR_HOLES
  }

  /** del_slot's writes: the predecessor (if any) skips entry l[p], which then links to `free`. */
  function DelSlotTable(h: seq<Hole>, l: seq<nat>, p: nat, free: Option<nat>): seq<Hole>
    requires p < |l| && InTable(l, |h|)
  {
    var h1 := if p == 0 then h else h[l[p - 1] := h[l[p - 1]].(next := h[l[p]].next)];
    h1[l[p] := h1[l[p]].(next := free)]
  }

  /** del_slot moves entry l[p] from the hole list to the head of the free-slot list. */
  lemma DelSlotOk(h: seq<Hole>, head: Option<nat>, free: Option<nat>, l: seq<nat>, sp: seq<nat>, p: nat)
    requires TableOk(h, head, free, l, sp) && p < |l|
    ensures InTable(l, |h|)
    ensures var h' := DelSlotTable(h, l, p, free);
      && TableOk(h', if p == 0 then h[l[0]].next else head, Some(l[p]), Remove(l, p), [l[p]] + sp)
      && Extents(h', Remove(l, p)) == Remove(Extents(h, l), p)
  {
    var nx := Nexts(h);
    var hp := l[p];
    var r := Remove(l, p);
    var head1 := if p == 0 then h[l[0]].next else head;
    var h1 := if p == 0 then h else h[l[p - 1] := h[l[p - 1]].(next := h[hp].next)];
    ExtentsRemove(h, l, p);
    if p == 0 {
      ListPop(nx, head, l);
    } else {
      var pv := l[p - 1];
      NextsSet(h, pv, h1[pv]);
      ListUnlink(nx, head, l, p);
      DisjointOut(l, sp, p - 1);
      ListFrame(nx, free, sp, pv, h[hp].next);
      ExtentsRelink(h, r, pv, h[hp].next);
    }
    assert IsList(Nexts(h1), head1, r) && IsList(Nexts(h1), free, sp);
    RemoveIn(l, p, hp);
    DisjointOut(l, sp, p);
    var h2 := h1[hp := h1[hp].(next := free)];
    NextsSet(h1, hp, h2[hp]);
    ListFrame(Nexts(h1), head1, r, hp, free);
    ListPush(Nexts(h1), free, sp, hp);
    DisjointRemovePush(l, sp, p);
    ExtentsRelink(h1, r, hp, free);
  }

  /** Rewriting the block of an entry on the hole list, link unchanged, keeps the lists as they are. */
  lemma SetBlockOk(h: seq<Hole>, head: Option<nat>, free: Option<nat>, l: seq<nat>, sp: seq<nat>, p: nat, v: Hole)
    requires TableOk(h, head, free, l, sp) && p < |l| && v.next == h[l[p]].next
    ensures InTable(l, |h|)
    ensures TableOk(h[l[p] := v], head, free, l, sp)
    ensures Extents(h[l[p] := v], l) == Extents(h, l)[p := Extent(v.base, v.len)]
  {
    NextsSet(h, l[p], v);
    assert Nexts(h)[l[p] := v.next] == Nexts(h);
    ExtentsSet(h, l, p, v);
  }

  /** free_mem at the front: the first unused entry takes the block and becomes the head hole. */
  lemma LinkFrontOk(h: seq<Hole>, head: Option<nat>, free: Option<nat>, l: seq<nat>, sp: seq<nat>, base: nat, len: nat)
    requires TableOk(h, head, free, l, sp) && |sp| > 0
    ensures var x := sp[0];
      var h' := h[x := Hole(head, base, len)];
      && InTable(l, |h|)
      && TableOk(h', Some(x), h[x].next, [x] + l, sp[1..])
      && Extents(h', [x] + l) == Inserted(Extents(h, l), 0, Extent(base, len))
  {
    var x := sp[0];
    var nx := Nexts(h);
    var v := Hole(head, base, len);
    var h' := h[x := v];
    assert x in sp;
    DisjointOut2(l, sp, 0);
    ListTail(nx, free, sp);
    NextsSet(h, x, v);
    ListPush(nx, head, l, x);
    HeadNotInTail(sp);
    ListFrame(nx, h[x].next, sp[1..], x, head);
    PushDisjoint(l, sp, x);
    ExtentsInsert(h', l, 0, x);
    ExtentsFrame(h, l, x, v);
    assert [x] + l == l[..0] + [x] + l[0..];
  }

  /** free_mem after position p - 1: the first unused entry takes the block and is linked in after l[p - 1]. */
  lemma LinkAfterOk(h: seq<Hole>, head: Option<nat>, free: Option<nat>, l: seq<nat>, sp: seq<nat>, p: nat, base: nat, len: nat)
    requires TableOk(h, head, free, l, sp) && |sp| > 0 && 0 < p <= |l|
    ensures var x, pv := sp[0], l[p - 1];
      var h' := h[x := Hole(h[pv].next, base, len)][pv := h[pv].(next := Some(x))];
      && InTable(l, |h|)
      && TableOk(h', head, h[x].next, l[..p] + [x] + l[p..], sp[1..])
      && Extents(h', l[..p] + [x] + l[p..]) == Inserted(Extents(h, l), p, Extent(base, len))
  {
    var x, pv := sp[0], l[p - 1];
    var v := Hole(h[pv].next, base, len);
    var h1 := h[x := v];
    var h' := h1[pv := h[pv].(next := Some(x))];
    var l' := l[..p] + [x] + l[p..];
    assert x in sp;
    assert pv in l;
    DisjointOut2(l, sp, 0);
    DisjointOut(l, sp, p - 1);
    LinkAfterLinks(h, head, l, p, x, v);
    LinkAfterSpare(h, free, sp, pv, v);
    InsertDisjoint(l, sp, p, x);
    ExtentsFrame(h, l, x, v);
    ExtentsInsert(h1, l, p, x);
    ExtentsSame(h1, h', l');
  }

  /** The hole list after free_mem linked entry x in after position p - 1. */
  lemma LinkAfterLinks(h: seq<Hole>, head: Option<nat>, l: seq<nat>, p: nat, x: nat, v: Hole)
    requires IsList(Nexts(h), head, l) && 0 < p <= |l| && x < |h| && x !in l && v.next == h[l[p - 1]].next
    ensures var pv := l[p - 1];
      IsList(Nexts(h[x := v][pv := h[pv].(next := Some(x))]), head, l[..p] + [x] + l[p..])
  {
    var pv := l[p - 1];
    var nx := Nexts(h);
    var h1 := h[x := v];
    var h' := h1[pv := h[pv].(next := Some(x))];
    assert pv in l;
    NextsSet(h, x, v);
    NextsSet(h1, pv, h'[pv]);
    assert Nexts(h') == nx[x := nx[pv]][pv := Some(x)];
    ListInsertAfter(nx, head, l, p - 1, x);
    assert l[..p - 1 + 1] + [x] + l[p - 1 + 1..] == l[..p] + [x] + l[p..];
  }

  /** The free-slot list after free_mem took its first entry x and linked it in after pv, a hole. */
  lemma LinkAfterSpare(h: seq<Hole>, free: Option<nat>, sp: seq<nat>, pv: nat, v: Hole)
    requires IsList(Nexts(h), free, sp) && |sp| > 0 && pv < |h| && pv !in sp
    ensures var x := sp[0];
      IsList(Nexts(h[x := v][pv := h[pv].(next := Some(x))]), h[x].next, sp[1..])
  {
    var x := sp[0];
    var nx := Nexts(h);
    var h1 := h[x := v];
    var h' := h1[pv := h[pv].(next := Some(x))];
    ListTail(nx, free, sp);
    HeadNotInTail(sp);
    NextsSet(h, x, v);
    NextsSet(h1, pv, h'[pv]);
    ListFrame(nx, h[x].next, sp[1..], x, v.next);
    ListFrame(Nexts(h1), h[x].next, sp[1..], pv, Some(x));
  }

  /** free_mem's write of the block into entry x. */
  function Claim(h: seq<Hole>, x: nat, base: nat, len: nat): seq<Hole>
    requires x < |h|
  {
    h[x := h[x].(base := base, len := len)]
  }

  /** A write of entry s's link. */
  function Relink(h: seq<Hole>, s: nat, n: Option<nat>): seq<Hole>
    requires s < |h|
  {
    h[s := h[s].(next := n)]
  }

  /** free_mem's writes for a block that goes to the front. */
  lemma ClaimFront(h: seq<Hole>, x: nat, n: Option<nat>, base: nat, len: nat)
    requires x < |h|
    ensures Relink(Claim(h, x, base, len), x, n) == h[x := Hole(n, base, len)]
  {
  }

  /** free_mem's writes for a block linked in after entry pv. */
  lemma ClaimAfter(h: seq<Hole>, x: nat, pv: nat, base: nat, len: nat)
    requires x < |h| && pv < |h| && x != pv
    ensures var h1 := Claim(h, x, base, len);
      Relink(Relink(h1, x, h1[pv].next), pv, Some(x)) == h[x := Hole(h[pv].next, base, len)][pv := h[pv].(next := Some(x))]
  {
  }

  /** Tables that agree on every block give the same blocks for any list. */
  lemma ExtentsSame(h: seq<Hole>, h': seq<Hole>, l: seq<nat>)
    requires InTable(l, |h|) && |h'| == |h|
    requires forall s :: 0 <= s < |h| ==> h'[s].base == h[s].base && h'[s].len == h[s].len
    ensures Extents(h', l) == Extents(h, l)
  {
  }

  class HoleTable {
    /** hole[], the table. */
    const hole: array<Hole>
    /** hole_head, the first hole. */
    var holeHead: Option<nat>
    /** free_slots, the first entry not in use. */
    var freeSlots: Option<nat>
    /** The entries on the hole list, in list order. */
    ghost var holes: seq<nat>
    /** The entries on the free-slot list, in list order. */
    ghost var spare: seq<nat>
    /** The free blocks the hole list describes, in list order. */
    ghost var blocks: seq<Extent>

    /**
     * Both lists are well formed, share no entry and between them hold
     * every entry, and `blocks` is what the hole list's entries hold.
     */
    ghost predicate Shape()
      reads this, hole
    {
      var ok := TableOk(hole[..], holeHead, freeSlots, holes, spare)
        && InTable(holes, hole.Length) && blocks == Extents(hole[..], holes);
      ok
    }

    /** The table is well formed and its holes are sorted, non-empty and apart. */
    ghost predicate Valid()
      reads this, hole
    {
      var ok := Shape() && HolesOk(blocks); ok
    }

    /** The table as the program image holds it before mem_init: all zero. */
    constructor ()
      ensures hole.Length == NR_HOLES && fresh(hole)
    {
      hole := new Hole[NR_HOLES](_ => Hole(None, 0, 0));
      holeHead, freeSlots := None, None;
      holes, spare, blocks := [], [], [];
    }

    /**
     * del_slot: takes the entry at position p off the hole list (prev is
     * the entry before it, nothing at the head) and pushes it on the
     * free-slot list.  No block changes.
     */
    method DelSlot(prev: Option<nat>, hp: nat, ghost p: nat)
      requires Shape() && p < |holes| && holes[p] == hp
      requires prev == (if p == 0 then None else Some(holes[p - 1]))
      modifies this, hole
      ensures Shape()
      ensures holes == Remove(old(holes), p) && spare == [hp] + old(spare)
      ensures blocks == Remove(old(blocks), p)
    {
      ghost var h0, head0, free0, l0, sp0 := hole[..], holeHead, freeSlots, holes, spare;
      assert holes[0] in holes && Differ(holes, 0, p) && Differ(holes, p - 1, p);
      if holeHead == Some(hp) {
        holeHead := hole[hp].next;
      } else {
        var pv := prev.value;
        hole[pv] := hole[pv].(next := hole[hp].next);
      }
      hole[hp] := hole[hp].(next := freeSlots);
      freeSlots := Some(hp);
      holes := Remove(holes, p);
      spare := [hp] + spare;
      blocks := Remove(blocks, p);
      DelSlotDone(h0, head0, free0, l0, sp0, p);
    }

    /** The state del_slot leaves. */
    lemma DelSlotDone(h0: seq<Hole>, head0: Option<nat>, free0: Option<nat>, l0: seq<nat>, sp0: seq<nat>, p: nat)
      requires TableOk(h0, head0, free0, l0, sp0) && p < |l0|
      requires InTable(l0, |h0|) && hole[..] == DelSlotTable(h0, l0, p, free0)
      requires holeHead == (if p == 0 then h0[l0[0]].next else head0) && freeSlots == Some(l0[p])
      requires holes == Remove(l0, p) && spare == [l0[p]] + sp0
      requires blocks == Remove(Extents(h0, l0), p)
      ensures Shape()
    {
      DelSlotOk(h0, head0, free0, l0, sp0, p);
    }

    /** The hole at position p now holds the block [base, base + len); its link is kept. */
    method SetBlock(hp: nat, ghost p: nat, base: nat, len: nat)
      requires Shape() && p < |holes| && holes[p] == hp
      modifies this, hole
      ensures Shape() && holes == old(holes) && hole[hp].len == len
      ensures blocks == old(blocks)[p := Extent(base, len)]
    {
      ghost var h0 := hole[..];
      var v := hole[hp].(base := base, len := len);
      SetBlockOk(h0, holeHead, freeSlots, holes, spare, p, v);
      hole[hp] := v;
      assert hole[..] == h0[hp := v];
      blocks := blocks[p := Extent(base, len)];
    }

    /**
     * One step of merge: if the hole at position i touches its successor,
     * it absorbs it and the successor's entry is freed; otherwise the
     * successor becomes the current hole.
     */
    method AbsorbNext(hp: nat, ghost i: nat) returns (cur: nat, ghost j: nat)
      requires Shape() && i + 1 < |holes| && holes[i] == hp
      modifies this, hole
      ensures Shape() && j < |holes| && holes[j] == cur
      ensures (blocks, j) == Absorb(old(blocks), i)
    {
      ghost var ext := blocks;
      var nextPtr := hole[hp].next.value;
      assert nextPtr == holes[i + 1];
      assert ext[i] == Extent(hole[hp].base, hole[hp].len);
      assert ext[i + 1] == Extent(hole[nextPtr].base, hole[nextPtr].len);
      if hole[hp].base + hole[hp].len == hole[nextPtr].base {
        assert Absorb(ext, i) == (Joined(ext, i), i);
        JoinedIsRemove(ext, i);
        var len := hole[hp].len + hole[nextPtr].len;
        assert Extent(hole[hp].base, len) == Extent(ext[i].base, ext[i].len + ext[i + 1].len);
        SetBlock(hp, i, hole[hp].base, len);
        DelSlot(Some(hp), nextPtr, i + 1);
        assert blocks == Joined(ext, i);
        cur, j := hp, i;
      } else {
        assert Absorb(ext, i) == (ext, i + 1);
        cur, j := nextPtr, i + 1;
      }
    }

    /** merge: the hole at position i absorbs up to two successors that touch. */
    method Merge(hp: nat, ghost i: nat)
      requires Shape() && i < |holes| && holes[i] == hp
      modifies this, hole
      ensures Shape() && blocks == MergeAt(old(blocks), i)
    {
      if hole[hp].next == None {
        return;
      }
      var cur, j := AbsorbNext(hp, i);
      if hole[cur].next == None {
        return;
      }
      cur, j := AbsorbNext(cur, j);
    }

    /**
     * alloc_mem: first fit.  Scans the holes below swap_base for the first
     * one of at least `clicks` clicks, cuts the block off its low end
     * (dropping the entry if nothing is left) and returns the block's
     * base, or NO_MEM when no hole fits.  swap_out is the constant 0, so
     * the outer retry loop runs once.
     */
    method AllocMem(clicks: nat) returns (r: nat)
      requires Valid()
      modifies this, hole
      ensures Valid()
      ensures (blocks, r) == Allocated(old(blocks), clicks)
    {
      ghost var ext := blocks;
      var found, prev, hp, p := FirstFit(clicks);
      if found {
        AllocatedAt(ext, clicks, p);
        r := CutHole(prev, hp, p, clicks);
        AllocKeepsOk(ext, clicks);
      } else {
        NotAllocated(ext, clicks, p);
        r := NO_MEM;
      }
    }

    /**
     * alloc_mem's scan: walks the hole list while the holes lie below
     * swap_base and stops at the first one of at least `clicks` clicks,
     * reporting its position p, its entry hp and the entry before it.
     */
    method FirstFit(clicks: nat) returns (found: bool, prev: Option<nat>, hp: nat, ghost p: nat)
      requires Chain(Nexts(hole[..]), holeHead, holes) && InTable(holes, hole.Length)
      ensures p <= |holes| && prev == (if p == 0 then None else Some(holes[p - 1]))
      ensures forall j :: 0 <= j < p ==> hole[holes[j]].base < SWAP_BASE && hole[holes[j]].len < clicks
      ensures found ==> p < |holes| && holes[p] == hp && hole[hp].base < SWAP_BASE && hole[hp].len >= clicks
      ensures !found ==> p < |holes| ==> hole[holes[p]].base >= SWAP_BASE
      ensures found ==> hole[hp].base < SWAP_BASE && hole[hp].len >= clicks
      ensures found ==> if prev.None? then holeHead == Some(hp) else prev.value < hole.Length && hole[prev.value].next == Some(hp)
    {
      ghost var nx := Nexts(hole[..]);
      prev := None;
      var cur := holeHead;
      p := 0;
      while cur.Some? && hole[cur.value].base < SWAP_BASE
        invariant p <= |holes| && cur == (if p < |holes| then Some(holes[p]) else None)
        invariant prev == (if p == 0 then None else Some(holes[p - 1]))
        invariant forall j :: 0 <= j < p ==> hole[holes[j]].base < SWAP_BASE && hole[holes[j]].len < clicks
        decreases |holes| - p
      {
        if hole[cur.value].len >= clicks {
          if p > 0 {
            assert nx[holes[p - 1]] == After(holes, p - 1);
          }
          return true, prev, cur.value, p;
        }
        assert nx[holes[p]] == After(holes, p);
        prev := cur;
        cur := hole[cur.value].next;
        p := p + 1;
      }
      return false, prev, 0, p;
    }

    /**
     * The body of alloc_mem's loop once hole p fits: the block is cut off
     * the hole's low end and the entry is dropped when nothing is left.
     */
    method CutHole(prev: Option<nat>, hp: nat, ghost p: nat, clicks: nat) returns (r: nat)
      requires Shape() && p < |holes| && holes[p] == hp && hole[hp].len >= clicks
      requires prev == (if p == 0 then None else Some(holes[p - 1]))
      modifies this, hole
      ensures Shape() && r == old(blocks)[p].base && blocks == Cut(old(blocks), p, clicks)
    {
      ghost var ext := blocks;
      assert ext[p] == Extent(hole[hp].base, hole[hp].len);
      r := hole[hp].base;
      var len := hole[hp].len - clicks;
      CutSteps(ext, p, clicks, Extent(r + clicks, len));
      SetBlock(hp, p, r + clicks, len);
      if len == 0 {
        DelSlot(prev, hp, p);
      }
    }

    /**
     * free_mem: returns the block [base, base + clicks) to the hole list.
     * Nothing happens for zero clicks.  Otherwise an unused entry is taken
     * (the table must not be full: the C code panics), linked in before the
     * first hole whose base is not below `base`, and merged with the holes
     * it touches.  The entry is claimed here once the position is known;
     * the C code claims it before the search, which reads only entries on
     * the hole list, so the outcome is the same.
     */
    method FreeMem(base: nat, clicks: nat)
      requires Valid() && Returnable(blocks, base, clicks)
      requires clicks == 0 || |holes| < NR_HOLES
      modifies this, hole
      ensures Valid()
      ensures blocks == Freed(old(blocks), base, clicks)
    {
      if clicks == 0 {
        return;
      }
      ghost var ext := blocks;
      var hp := holeHead;
      if hp == None || base <= hole[hp.value].base {
        FreedAt(ext, base, clicks, 0);
        var newPtr := LinkFront(base, clicks);
        Merge(newPtr, 0);
      } else {
        var prev, p := FindPlace(base);
        FreedAt(ext, base, clicks, p);
        LinkAfter(prev, p, base, clicks);
        Merge(prev, p - 1);
      }
      FreeKeepsOk(ext, base, clicks);
    }

    /**
     * free_mem's search when the block does not go on the front: walks the
     * hole list past every hole below base and reports the last one passed,
     * at position p - 1.  The caller has checked the first hole, so the
     * C loop's first round, which always runs, is taken before the loop.
     */
    method FindPlace(base: nat) returns (prev: nat, ghost p: nat)
      requires Chain(Nexts(hole[..]), holeHead, holes) && InTable(holes, hole.Length)
      requires |holes| > 0 && base > hole[holes[0]].base
      ensures 0 < p <= |holes| && holes[p - 1] == prev
      ensures forall j :: 0 <= j < p ==> hole[holes[j]].base < base
      ensures p < |holes| ==> base <= hole[holes[p]].base
      ensures hole[prev].base < base && (hole[prev].next.Some? ==> hole[prev].next.value < hole.Length && base <= hole[hole[prev].next.value].base)
    {
      ghost var nx := Nexts(hole[..]);
      prev := holeHead.value;
      assert nx[holes[0]] == After(holes, 0);
      var hp := hole[prev].next;
      p := 1;
      while hp.Some? && base > hole[hp.value].base
        invariant 0 < p <= |holes| && hp == (if p < |holes| then Some(holes[p]) else None)
        invariant prev == holes[p - 1]
        invariant forall j :: 0 <= j < p ==> hole[holes[j]].base < base
        decreases |holes| - p
      {
        assert nx[holes[p]] == After(holes, p);
        prev := hp.value;
        hp := hole[prev].next;
        p := p + 1;
      }
    }

    /** free_mem's block goes on the front of the hole list, in the first unused entry. */
    method LinkFront(base: nat, clicks: nat) returns (newPtr: nat)
      requires Shape() && |holes| < NR_HOLES
      modifies this, hole
      ensures Shape() && |holes| > 0 && holes[0] == newPtr
      ensures blocks == Inserted(old(blocks), 0, Extent(base, clicks))
    {
      ghost var h0, head0, free0, l0, sp0 := hole[..], holeHead, freeSlots, holes, spare;
      assert |sp0| > 0;
      newPtr := freeSlots.value;
      hole[newPtr] := hole[newPtr].(base := base, len := clicks);
      freeSlots := hole[newPtr].next;
      hole[newPtr] := hole[newPtr].(next := holeHead);
      holeHead := Some(newPtr);
      holes := [newPtr] + holes;
      spare := spare[1..];
      blocks := Inserted(blocks, 0, Extent(base, clicks));
      LinkFrontDone(h0, head0, free0, l0, sp0, base, clicks);
    }

    /** free_mem's block is linked in after prev, the hole at position p - 1, in the first unused entry. */
    method LinkAfter(prev: nat, ghost p: nat, base: nat, clicks: nat)
      requires Shape() && |holes| < NR_HOLES && 0 < p <= |holes| && holes[p - 1] == prev
      modifies this, hole
      ensures Shape() && |holes| == old(|holes|) + 1 && holes[p - 1] == prev
      ensures blocks == Inserted(old(blocks), p, Extent(base, clicks))
    {
      ghost var h0, head0, free0, l0, sp0 := hole[..], holeHead, freeSlots, holes, spare;
      assert |sp0| > 0 && sp0[0] in sp0 && prev in l0;
      DisjointOut2(l0, sp0, 0);
      var newPtr := freeSlots.value;
      hole[newPtr] := hole[newPtr].(base := base, len := clicks);
      freeSlots := hole[newPtr].next;
      hole[newPtr] := hole[newPtr].(next := hole[prev].next);
      hole[prev] := hole[prev].(next := Some(newPtr));
      holes := holes[..p] + [newPtr] + holes[p..];
      spare := spare[1..];
      blocks := Inserted(blocks, p, Extent(base, clicks));
      LinkAfterDone(h0, head0, free0, l0, sp0, p, base, clicks);
    }

    /** The state after free_mem linked the block in at the front. */
    lemma LinkFrontDone(h0: seq<Hole>, head0: Option<nat>, free0: Option<nat>, l0: seq<nat>, sp0: seq<nat>, base: nat, clicks: nat)
      requires TableOk(h0, head0, free0, l0, sp0) && |sp0| > 0
      requires hole[..] == Relink(Claim(h0, sp0[0], base, clicks), sp0[0], head0)
      requires holeHead == Some(sp0[0]) && freeSlots == h0[sp0[0]].next
      requires holes == [sp0[0]] + l0 && spare == sp0[1..]
      requires InTable(l0, |h0|) && blocks == Inserted(Extents(h0, l0), 0, Extent(base, clicks))
      ensures Shape()
    {
      LinkFrontOk(h0, head0, free0, l0, sp0, base, clicks);
      ClaimFront(h0, sp0[0], head0, base, clicks);
    }

    /** The state after free_mem linked the block in after position p - 1. */
    lemma LinkAfterDone(h0: seq<Hole>, head0: Option<nat>, free0: Option<nat>, l0: seq<nat>, sp0: seq<nat>, p: nat, base: nat, clicks: nat)
      requires TableOk(h0, head0, free0, l0, sp0) && |sp0| > 0 && 0 < p <= |l0|
      requires l0[p - 1] < |h0| && sp0[0] < |h0| && sp0[0] != l0[p - 1]
      requires var h1 := Claim(h0, sp0[0], base, clicks);
        hole[..] == Relink(Relink(h1, sp0[0], h1[l0[p - 1]].next), l0[p - 1], Some(sp0[0]))
      requires holeHead == head0 && freeSlots == h0[sp0[0]].next
      requires holes == l0[..p] + [sp0[0]] + l0[p..] && spare == sp0[1..]
      requires InTable(l0, |h0|) && blocks == Inserted(Extents(h0, l0), p, Extent(base, clicks))
      ensures Shape()
    {
      LinkAfterOk(h0, head0, free0, l0, sp0, p, base, clicks);
      ClaimAfter(h0, sp0[0], l0[p - 1], base, clicks);
    }

    /**
     * mem_init: links every entry onto the free-slot list, empties the hole
     * list, then frees each non-empty chunk, from the last to the first,
     * and returns the sum of their sizes.
     */
    method MemInit(chunks: seq<Extent>) returns (free: nat)
      requires hole.Length == NR_HOLES && |chunks| == NR_MEMS && ChunksOk(chunks)
      modifies this, hole
      ensures Valid()
      ensures blocks == InitHoles(chunks, 0) && free == SumSizes(chunks)
    {
      var s := 0;
      while s < NR_HOLES
        invariant s <= NR_HOLES
        invariant forall t :: 0 <= t < s ==> hole[t].next == Some(t + 1)
      {
        hole[s] := hole[s].(next := Some(s + 1));
        s := s + 1;
      }
      hole[NR_HOLES - 1] := hole[NR_HOLES - 1].(next := None);
      holeHead := None;
      freeSlots := Some(0);
      holes := [];
      spare := AllSlots();
      blocks := [];
      AllSlotsDone();
      free := 0;
      var i: nat := NR_MEMS;
      while i > 0
        invariant i <= NR_MEMS
        invariant Valid() && blocks == InitHoles(chunks, i)
        invariant free == SumSizes(chunks[i..])
      {
        i := i - 1;
        InitStep(chunks, i);
        if chunks[i].len > 0 {
          FreeMem(chunks[i].base, chunks[i].len);
          free := free + chunks[i].len;
        }
      }
    }

    /** The state after mem_init's first loop: no holes, every entry on the free-slot list. */
    lemma AllSlotsDone()
      requires hole.Length == NR_HOLES && hole[NR_HOLES - 1].next == None
      requires forall t :: 0 <= t < NR_HOLES - 1 ==> hole[t].next == Some(t + 1)
      requires holeHead == None && freeSlots == Some(0) && holes == [] && spare == AllSlots()
      requires blocks == []
      ensures Valid()
    {
      AllSlotsList(hole[..]);
    }
  }

  /** The free-slot list mem_init builds: every entry, in table order. */
  function AllSlots(): (l: seq<nat>)
    ensures |l| == NR_HOLES && forall t :: 0 <= t < NR_HOLES ==> l[t] == t
  {
    seq(NR_HOLES, t requires 0 <= t < NR_HOLES => t)
  }

  /** Entries linked each to the next, the last to nothing, form the list of all entries. */
  lemma AllSlotsList(h: seq<Hole>)
    requires |h| == NR_HOLES && h[NR_HOLES - 1].next == None
    requires forall t :: 0 <= t < NR_HOLES - 1 ==> h[t].next == Some(t + 1)
    ensures IsList(Nexts(h), Some(0), AllSlots()) && IsList(Nexts(h), None, [])
    ensures Disjoint([], AllSlots())
  {
    var l := AllSlots();
    forall i | 0 <= i < |l|
      ensures Nexts(h)[l[i]] == After(l, i)
    {
    }
  }

  /** The entry at position p of one list is not on a list disjoint from it. */
  lemma DisjointOut(l1: seq<nat>, l2: seq<nat>, p: nat)
    requires Disjoint(l1, l2) && p < |l1|
    ensures l1[p] !in l2
  {
  }

  /** The entry at position p of the second list is not on the first. */
  lemma DisjointOut2(l1: seq<nat>, l2: seq<nat>, p: nat)
    requires Disjoint(l1, l2) && p < |l2|
    ensures l2[p] !in l1
  {
  }

  lemma DisjointRemovePush(l1: seq<nat>, l2: seq<nat>, p: nat)
    requires Disjoint(l1, l2) && NoDup(l1) && p < |l1|
    ensures Disjoint(Remove(l1, p), [l1[p]] + l2)
  {
    NoDupPairs(l1);
    var r := Remove(l1, p);
    var s := [l1[p]] + l2;
    forall i, j | 0 <= i < |r| && 0 <= j < |s|
      ensures r[i] != s[j]
    {
      if j > 0 {
        assert s[j] == l2[j - 1];
      }
    }
  }

  lemma PushDisjoint(l1: seq<nat>, l2: seq<nat>, x: nat)
    requires |l2| > 0 && x == l2[0] && Disjoint(l1, l2) && NoDup(l2)
    ensures Disjoint([x] + l1, l2[1..])
  {
    NoDupPairs(l2);
    var a, b := [x] + l1, l2[1..];
    forall i, j | 0 <= i < |a| && 0 <= j < |b|
      ensures a[i] != b[j]
    {
      assert b[j] == l2[j + 1];
      if i > 0 {
        assert a[i] == l1[i - 1];
      }
    }
  }

  lemma InsertDisjoint(l1: seq<nat>, l2: seq<nat>, p: nat, x: nat)
    requires |l2| > 0 && x == l2[0] && Disjoint(l1, l2) && NoDup(l2) && p <= |l1|
    ensures Disjoint(l1[..p] + [x] + l1[p..], l2[1..])
  {
    NoDupPairs(l2);
    var a, b := l1[..p] + [x] + l1[p..], l2[1..];
    forall i, j | 0 <= i < |a| && 0 <= j < |b|
      ensures a[i] != b[j]
    {
      assert b[j] == l2[j + 1];
      if i < p {
        assert a[i] == l1[i];
      } else if i > p {
        assert a[i] == l1[i - 1];
      }
    }
  }

  /** Absorbing the successor is rewriting hole i and dropping position i + 1. */
  lemma JoinedIsRemove(ext: seq<Extent>, i: nat)
    requires i + 1 < |ext|
    ensures Joined(ext, i) == Remove(ext[i := Extent(ext[i].base, ext[i].len + ext[i + 1].len)], i + 1)
  {
  }

  /** One round of mem_init's chunk loop, for chunk j: what free_mem may assume and what it adds. */
  lemma InitStep(chunks: seq<Extent>, j: nat)
    requires j < |chunks| == NR_MEMS && ChunksOk(chunks)
    ensures var prior := InitHoles(chunks, j + 1);
      && HolesOk(prior) && |prior| < NR_HOLES
      && Returnable(prior, chunks[j].base, chunks[j].len)
      && InitHoles(chunks, j) == Freed(prior, chunks[j].base, chunks[j].len)
      && SumSizes(chunks[j..]) == chunks[j].len + SumSizes(chunks[j + 1..])
  {
    InitHolesOk(chunks, j + 1);
    InitReturnable(chunks, j);
    assert chunks[j..][1..] == chunks[j + 1..];
  }

  /** Each chunk mem_init frees is not yet free when it is freed. */
  lemma InitReturnable(chunks: seq<Extent>, j: nat)
    requires j < |chunks| && ChunksOk(chunks)
    ensures Returnable(InitHoles(chunks, j + 1), chunks[j].base, chunks[j].len)
  {
    InitHolesOk(chunks, j + 1);
    var c := chunks[j];
    var prior := InitHoles(chunks, j + 1);
    forall a: nat | c.base <= a < c.base + c.len
      ensures !Free(prior, a)
    {
      assert In(chunks[j], a);
    }
  }

  /** alloc_mem keeps the holes sorted and apart. */
  lemma AllocKeepsOk(ext: seq<Extent>, clicks: nat)
    requires HolesOk(ext)
    ensures HolesOk(Allocated(ext, clicks).0)
  {
    AllocTakesBlock(ext, clicks);
  }

  /** free_mem keeps the holes sorted and apart. */
  lemma FreeKeepsOk(ext: seq<Extent>, base: nat, clicks: nat)
    requires HolesOk(ext) && Returnable(ext, base, clicks)
    ensures HolesOk(Freed(ext, base, clicks))
  {
    FreeReturnsBlock(ext, base, clicks);
  }
}
