/**
 * The hole list of the process manager's memory allocator, as the sequence
 * of free blocks (holes) it describes, in list order.  A hole is a base
 * click address and a length in clicks; addresses are `phys_clicks`, 32-bit
 * unsigned click numbers.
 *
 * This module states what allocating and freeing do to that sequence: first
 * fit, cutting from the low end of the chosen hole, sorted insertion and
 * coalescing with the neighbours.  The allocator's table (module PmAlloc)
 * is proved to follow these definitions.
 */
module PmHoles {
  import opened Seqs

  /** One past the largest `phys_clicks` value. */
  const PHYS_LIMIT: nat := 0x1_0000_0000
  /** swap_base, `(phys_clicks) -1`: holes at or above it are not searched. */
  const SWAP_BASE: nat := 0xFFFF_FFFF
  /** NO_MEM, what alloc_mem returns when no hole fits. */
  const NO_MEM: nat := 0
  /** NR_MEMS, the number of memory chunks reported at boot. */
  const NR_MEMS: nat := 8

  datatype Extent = Extent(base: nat, len: nat)

  function End(e: Extent): nat { e.base + e.len }

  /** Click a lies in block e. */
  predicate In(e: Extent, a: nat) { e.base <= a < End(e) }

  /**
   * The invariant of the hole list: every hole is non-empty and inside the
   * click address space, and the holes are sorted by base with a gap between
   * any two neighbours (so no two holes touch or overlap).
   */
  predicate HolesOk(ext: seq<Extent>)
  {
    && (forall i :: 0 <= i < |ext| ==> ext[i].len > 0 && End(ext[i]) <= PHYS_LIMIT)
    && (forall i :: 0 <= i < |ext| - 1 ==> End(ext[i]) < ext[i + 1].base)
  }

  /** Click a is free: it lies in some hole. */
  predicate Free(ext: seq<Extent>, a: nat)
  {
    |ext| > 0 && (In(ext[0], a) || Free(ext[1..], a))
  }

  /** The number of free clicks. */
  function TotalLen(ext: seq<Extent>): nat
  {
    if |ext| == 0 then 0 else ext[0].len + TotalLen(ext[1..])
  }

  // ---------------------------------------------------------------------------
  // Facts about Free, TotalLen and HolesOk on pieces of a list

  lemma {:induction false} FreeConcat(x: seq<Extent>, y: seq<Extent>, a: nat)
    ensures Free(x + y, a) <==> Free(x, a) || Free(y, a)
    decreases |x|
  {
    if |x| > 0 {
      assert (x + y)[1..] == x[1..] + y;
      FreeConcat(x[1..], y, a);
    } else {
      assert x + y == y;
    }
  }

  lemma {:induction false} TotalLenConcat(x: seq<Extent>, y: seq<Extent>)
    ensures TotalLen(x + y) == TotalLen(x) + TotalLen(y)
    decreases |x|
  {
    if |x| > 0 {
      assert (x + y)[1..] == x[1..] + y;
      TotalLenConcat(x[1..], y);
    } else {
      assert x + y == y;
    }
  }

  lemma FreeSingle(e: Extent, a: nat)
    ensures Free([e], a) <==> In(e, a)
  {
    assert [e][1..] == [];
  }

  lemma TotalLenSingle(e: Extent)
    ensures TotalLen([e]) == e.len
  {
    assert [e][1..] == [];
  }

  /** A list split around position i. */
  lemma Split3(ext: seq<Extent>, i: nat)
    requires i < |ext|
    ensures ext == ext[..i] + [ext[i]] + ext[i + 1..]
    ensures forall a: nat :: Free(ext, a) <==> Free(ext[..i], a) || In(ext[i], a) || Free(ext[i + 1..], a)
    ensures TotalLen(ext) == TotalLen(ext[..i]) + ext[i].len + TotalLen(ext[i + 1..])
  {
    assert ext == ext[..i] + [ext[i]] + ext[i + 1..];
    forall a: nat
      ensures Free(ext, a) <==> Free(ext[..i], a) || In(ext[i], a) || Free(ext[i + 1..], a)
    {
      FreeConcat(ext[..i] + [ext[i]], ext[i + 1..], a);
      FreeConcat(ext[..i], [ext[i]], a);
      FreeSingle(ext[i], a);
    }
    TotalLenConcat(ext[..i] + [ext[i]], ext[i + 1..]);
    TotalLenConcat(ext[..i], [ext[i]]);
    TotalLenSingle(ext[i]);
  }

  /** The list x + [e] + y, seen piece by piece. */
  lemma Join3(x: seq<Extent>, e: Extent, y: seq<Extent>)
    ensures forall a: nat :: Free(x + [e] + y, a) <==> Free(x, a) || In(e, a) || Free(y, a)
    ensures TotalLen(x + [e] + y) == TotalLen(x) + e.len + TotalLen(y)
  {
    Split3(x + [e] + y, |x|);
    assert (x + [e] + y)[..|x|] == x;
    assert (x + [e] + y)[|x| + 1..] == y;
  }

  /** Sorted holes: every hole before position j ends before hole j starts. */
  lemma SortedBefore(ext: seq<Extent>, i: nat, j: nat)
    requires HolesOk(ext) && i < j < |ext|
    ensures End(ext[i]) < ext[j].base
    decreases j - i
  {
    if i + 1 < j {
      SortedBefore(ext, i + 1, j);
    }
  }

  /** A click in a hole lies in no other hole. */
  lemma InOnlyOne(ext: seq<Extent>, i: nat, j: nat, a: nat)
    requires HolesOk(ext) && i < |ext| && j < |ext| && In(ext[i], a) && In(ext[j], a)
    ensures i == j
  {
    if i < j {
      SortedBefore(ext, i, j);
    } else if j < i {
      SortedBefore(ext, j, i);
    }
  }

  /** Free read as "some hole holds the click". */
  lemma {:induction false} FreeIsSome(ext: seq<Extent>, a: nat)
    ensures Free(ext, a) <==> exists i :: 0 <= i < |ext| && In(ext[i], a)
    decreases |ext|
  {
    if |ext| > 0 {
      FreeIsSome(ext[1..], a);
      if Free(ext[1..], a) {
        var i :| 0 <= i < |ext[1..]| && In(ext[1..][i], a);
        assert In(ext[i + 1], a);
      }
      if exists i :: 0 <= i < |ext| && In(ext[i], a) {
        var i :| 0 <= i < |ext| && In(ext[i], a);
        if i > 0 {
          assert In(ext[1..][i - 1], a);
        }
      }
    }
  }

  // ---------------------------------------------------------------------------
  // alloc_mem

  /** Where alloc_mem's scan stops: at the first hole at or above swap_base or long enough, or at the end. */
  function Scan(ext: seq<Extent>, clicks: nat): (i: nat)
    ensures i <= |ext|
    ensures forall j :: 0 <= j < i ==> ext[j].base < SWAP_BASE && ext[j].len < clicks
    ensures i < |ext| ==> ext[i].base >= SWAP_BASE || ext[i].len >= clicks
  {
    if |ext| == 0 then 0
    else if ext[0].base >= SWAP_BASE || ext[0].len >= clicks then 0
    else 1 + Scan(ext[1..], clicks)
  }

  /** A hole alloc_mem may take for a request of `clicks`. */
  predicate Fits(e: Extent, clicks: nat)
  {
    e.base < SWAP_BASE && e.len >= clicks
  }

  /** The scan found a hole. */
  predicate Found(ext: seq<Extent>, clicks: nat)
  {
    Scan(ext, clicks) < |ext| && ext[Scan(ext, clicks)].base < SWAP_BASE
  }

  /** The block alloc_mem hands out, as (result, holes afterwards). */
  function Allocated(ext: seq<Extent>, clicks: nat): (seq<Extent>, nat)
  {
    if Found(ext, clicks) then
      var i := Scan(ext, clicks);
      var rest := Extent(ext[i].base + clicks, ext[i].len - clicks);
      (if rest.len == 0 then Remove(ext, i) else ext[i := rest], ext[i].base)
    else
      (ext, NO_MEM)
  }

  /**
   * alloc_mem is first fit: it succeeds iff some hole fits, and then takes
   * the first hole that fits, in list order.
   */
  lemma AllocIsFirstFit(ext: seq<Extent>, clicks: nat)
    requires HolesOk(ext)
    ensures Found(ext, clicks) <==> exists j :: 0 <= j < |ext| && Fits(ext[j], clicks)
    ensures Found(ext, clicks) ==> var i := Scan(ext, clicks);
      Fits(ext[i], clicks) && (forall j :: 0 <= j < i ==> !Fits(ext[j], clicks))
  {
    BelowSwap(ext);
  }

  /** Only the last hole can start at swap_base: every other one ends before another starts. */
  lemma BelowSwap(ext: seq<Extent>)
    requires HolesOk(ext)
    ensures forall j :: 0 <= j < |ext| - 1 ==> ext[j].base < SWAP_BASE
  {
    forall j | 0 <= j < |ext| - 1
      ensures ext[j].base < SWAP_BASE
    {
      assert End(ext[j]) < ext[j + 1].base;
      assert ext[j + 1].len > 0 && End(ext[j + 1]) <= PHYS_LIMIT;
    }
  }

  /**
   * A successful allocation returns the old base of the chosen hole, and the
   * clicks it hands out, [r, r + clicks), were free and are free no longer;
   * every other click keeps its state and the free total drops by `clicks`.
   * A failed allocation returns NO_MEM and changes nothing.
   */
  lemma AllocTakesBlock(ext: seq<Extent>, clicks: nat)
    requires HolesOk(ext)
    ensures var (ext', r) := Allocated(ext, clicks);
      && HolesOk(ext')
      && (Found(ext, clicks) ==>
            && r == ext[Scan(ext, clicks)].base
            && (forall a: nat :: r <= a < r + clicks ==> Free(ext, a))
            && (forall a: nat :: Free(ext', a) <==> Free(ext, a) && !(r <= a < r + clicks))
            && TotalLen(ext') + clicks == TotalLen(ext))
      && (!Found(ext, clicks) ==> r == NO_MEM && ext' == ext)
  {
    var (ext', r) := Allocated(ext, clicks);
    if Found(ext, clicks) {
      var i := Scan(ext, clicks);
      assert r == ext[i].base;
      if clicks == ext[i].len {
        assert ext' == Remove(ext, i);
        CutWhole(ext, i);
      } else {
        assert ext' == ext[i := Extent(ext[i].base + clicks, ext[i].len - clicks)];
        CutPart(ext, i, clicks);
      }
      forall a: nat | r <= a < r + clicks
        ensures Free(ext, a)
      {
        FreeHas(ext, i, a);
      }
    }
  }

  /** Taking a whole hole off the list frees none of its clicks any more. */
  lemma CutWhole(ext: seq<Extent>, i: nat)
    requires HolesOk(ext) && i < |ext|
    ensures var ext' := Remove(ext, i);
      && HolesOk(ext')
      && (forall a: nat :: Free(ext', a) <==> Free(ext, a) && !In(ext[i], a))
      && TotalLen(ext') + ext[i].len == TotalLen(ext)
  {
    var ext' := Remove(ext, i);
    Split3(ext, i);
    assert ext' == ext[..i] + ext[i + 1..];
    forall a: nat
      ensures Free(ext', a) <==> Free(ext, a) && !In(ext[i], a)
    {
      FreeConcat(ext[..i], ext[i + 1..], a);
      if In(ext[i], a) {
        FreeOthersExcept(ext, i, a);
      }
    }
    TotalLenConcat(ext[..i], ext[i + 1..]);
    RemoveKeepsOk(ext, i);
  }

  /** Cutting `clicks` off the low end of a longer hole frees none of those clicks any more. */
  lemma CutPart(ext: seq<Extent>, i: nat, clicks: nat)
    requires HolesOk(ext) && i < |ext| && clicks < ext[i].len
    ensures var ext' := ext[i := Extent(ext[i].base + clicks, ext[i].len - clicks)];
      && HolesOk(ext')
      && (forall a: nat :: Free(ext', a) <==> Free(ext, a) && !(ext[i].base <= a < ext[i].base + clicks))
      && TotalLen(ext') + clicks == TotalLen(ext)
  {
    var rest := Extent(ext[i].base + clicks, ext[i].len - clicks);
    var ext' := ext[i := rest];
    Split3(ext, i);
    assert ext' == ext[..i] + [rest] + ext[i + 1..];
    Join3(ext[..i], rest, ext[i + 1..]);
    forall a: nat | In(ext[i], a)
      ensures !Free(ext[..i], a) && !Free(ext[i + 1..], a)
    {
      FreeOthersExcept(ext, i, a);
    }
    assert forall j :: 0 <= j < |ext'| && j != i ==> ext'[j] == ext[j];
  }

  /** A click of hole i is in none of the pieces around it. */
  lemma FreeOthersExcept(ext: seq<Extent>, i: nat, a: nat)
    requires HolesOk(ext) && i < |ext| && In(ext[i], a)
    ensures !Free(ext[..i], a) && !Free(ext[i + 1..], a)
  {
    FreeIsSome(ext[..i], a);
    FreeIsSome(ext[i + 1..], a);
    if Free(ext[..i], a) {
      var j :| 0 <= j < i && In(ext[..i][j], a);
      InOnlyOne(ext, i, j, a);
    }
    if Free(ext[i + 1..], a) {
      var j :| 0 <= j < |ext| - i - 1 && In(ext[i + 1..][j], a);
      InOnlyOne(ext, i, i + 1 + j, a);
    }
  }

  lemma RemoveKeepsOk(ext: seq<Extent>, i: nat)
    requires HolesOk(ext) && i < |ext|
    ensures HolesOk(Remove(ext, i))
  {
    var r := Remove(ext, i);
    forall j | 0 <= j < |r| - 1
      ensures End(r[j]) < r[j + 1].base
    {
      if j + 1 == i {
        SortedBefore(ext, j, i + 1);
      }
    }
  }

  /** The empty hole list frees nothing. */
  lemma FreeEmpty()
    ensures forall a: nat :: !Free([], a)
  {
  }

  /** A click of hole i is free. */
  lemma FreeHas(ext: seq<Extent>, i: nat, a: nat)
    requires i < |ext| && In(ext[i], a)
    ensures Free(ext, a)
  {
    FreeIsSome(ext, a);
  }

  // ---------------------------------------------------------------------------
  // free_mem and merge

  /** Where free_mem links a block that starts at `base`: before the first hole whose base is not below it. */
  function InsertPos(ext: seq<Extent>, base: nat): (k: nat)
    ensures k <= |ext|
    ensures forall j :: 0 <= j < k ==> ext[j].base < base
    ensures k < |ext| ==> base <= ext[k].base
  {
    if |ext| == 0 || base <= ext[0].base then 0 else 1 + InsertPos(ext[1..], base)
  }

  /** Holes i and i+1 touch. */
  predicate Touch(ext: seq<Extent>, i: nat)
    requires i + 1 < |ext|
  {
    End(ext[i]) == ext[i + 1].base
  }

  /** Hole i absorbs hole i+1. */
  function Joined(ext: seq<Extent>, i: nat): seq<Extent>
    requires i + 1 < |ext|
  {
    ext[..i] + [Extent(ext[i].base, ext[i].len + ext[i + 1].len)] + ext[i + 2..]
  }

  /** One step of merge: absorb the successor if it touches, else move on to it. */
  function Absorb(ext: seq<Extent>, i: nat): (seq<Extent>, nat)
    requires i + 1 < |ext|
  {
    if Touch(ext, i) then (Joined(ext, i), i) else (ext, i + 1)
  }

  /** merge(hp) for the hole at position i: up to two absorb steps. */
  function MergeAt(ext: seq<Extent>, i: nat): seq<Extent>
  {
    if i + 1 >= |ext| then ext
    else
      var (e1, j) := Absorb(ext, i);
      if j + 1 >= |e1| then e1 else Absorb(e1, j).0
  }

  /** The list with a new block linked in at position k. */
  function Inserted(ext: seq<Extent>, k: nat, e: Extent): seq<Extent>
    requires k <= |ext|
  {
    ext[..k] + [e] + ext[k..]
  }

  /**
   * free_mem(base, clicks): nothing for zero clicks; otherwise the block is
   * linked in at its sorted position and merge runs from its predecessor
   * (or from the block itself when it goes to the front).
   */
  function Freed(ext: seq<Extent>, base: nat, clicks: nat): seq<Extent>
  {
    if clicks == 0 then ext
    else
      var k := InsertPos(ext, base);
      MergeAt(Inserted(ext, k, Extent(base, clicks)), if k == 0 then 0 else k - 1)
  }

  /**
   * The block to free is a proper block of clicks that are not free: the
   * caller returns memory it had allocated.
   */
  predicate Returnable(ext: seq<Extent>, base: nat, clicks: nat)
  {
    base + clicks <= PHYS_LIMIT && forall a: nat :: base <= a < base + clicks ==> !Free(ext, a)
  }

  /** n joins its predecessor at position k - 1: that hole ends where n starts. */
  predicate JoinsPrev(ext: seq<Extent>, k: nat, n: Extent)
    requires k <= |ext|
  {
    k > 0 && End(ext[k - 1]) == n.base
  }

  /** n joins its successor at position k: that hole starts where n ends. */
  predicate JoinsNext(ext: seq<Extent>, k: nat, n: Extent)
    requires k <= |ext|
  {
    k < |ext| && End(n) == ext[k].base
  }

  /** The first position of the holes n joins. */
  function CoLo(ext: seq<Extent>, k: nat, n: Extent): nat
    requires k <= |ext|
  {
    if JoinsPrev(ext, k, n) then k - 1 else k
  }

  /** The position after the last hole n joins. */
  function CoHi(ext: seq<Extent>, k: nat, n: Extent): nat
    requires k <= |ext|
  {
    if JoinsNext(ext, k, n) then k + 1 else k
  }

  /** The one hole made of n and the holes it joins. */
  function CoHole(ext: seq<Extent>, k: nat, n: Extent): Extent
    requires k <= |ext|
  {
    var start := if JoinsPrev(ext, k, n) then ext[k - 1].base else n.base;
    var end := if JoinsNext(ext, k, n) then End(ext[k]) else End(n);
    Extent(start, end - start)
  }

  /**
   * The intended result of putting block n at position k, stated directly:
   * n joins its predecessor if that ends where n starts, and its successor
   * if that starts where n ends; the holes joined and n become one hole
   * running from the start of the first to the end of the last.
   */
  function CoalesceAt(ext: seq<Extent>, k: nat, n: Extent): seq<Extent>
    requires k <= |ext|
  {
    ext[..CoLo(ext, k, n)] + [CoHole(ext, k, n)] + ext[CoHi(ext, k, n)..]
  }

  /** free_mem's intended result. */
  function Coalesced(ext: seq<Extent>, base: nat, clicks: nat): seq<Extent>
  {
    if clicks == 0 then ext else CoalesceAt(ext, InsertPos(ext, base), Extent(base, clicks))
  }

  /** Where the freed block sits against its neighbours. */
  lemma Neighbours(ext: seq<Extent>, base: nat, clicks: nat)
    requires HolesOk(ext) && Returnable(ext, base, clicks) && clicks > 0
    ensures var k := InsertPos(ext, base);
      && (k > 0 ==> End(ext[k - 1]) <= base)
      && (k < |ext| ==> base + clicks <= ext[k].base)
  {
    var k := InsertPos(ext, base);
    if k > 0 && End(ext[k - 1]) > base {
      FreeHas(ext, k - 1, base);
    }
    if k < |ext| && base + clicks > ext[k].base {
      FreeHas(ext, k, ext[k].base);
    }
  }

  /** merge from a block linked in at the front of the list. */
  lemma MergeFront(ext: seq<Extent>, n: Extent)
    requires HolesOk(ext) && (|ext| > 0 ==> End(n) <= ext[0].base)
    ensures MergeAt(Inserted(ext, 0, n), 0) == CoalesceAt(ext, 0, n)
  {
    var e := Inserted(ext, 0, n);
    assert e == [n] + ext;
    if |ext| > 0 {
      assert e[1] == ext[0];
      if Touch(e, 0) {
        var m := Extent(n.base, n.len + ext[0].len);
        var e1 := [m] + ext[1..];
        assert Joined(e, 0) == e1;
        assert Absorb(e, 0) == (e1, 0);
        if 1 < |e1| {
          assert e1[1] == ext[1];
          assert End(ext[0]) < ext[1].base;
          assert !Touch(e1, 0);
        }
      } else {
        assert Absorb(e, 0) == (e, 1);
        if 2 < |e| {
          assert e[2] == ext[1];
          assert End(ext[0]) < ext[1].base;
          assert !Touch(e, 1);
        }
      }
    }
  }

  /** merge from the predecessor of a block linked in after position k - 1. */
  lemma MergeAfter(ext: seq<Extent>, k: nat, n: Extent)
    requires HolesOk(ext) && 0 < k <= |ext| && End(ext[k - 1]) <= n.base
    requires k < |ext| ==> End(n) <= ext[k].base
    ensures MergeAt(Inserted(ext, k, n), k - 1) == CoalesceAt(ext, k, n)
  {
    var e := Inserted(ext, k, n);
    assert e[k - 1] == ext[k - 1] && e[k] == n;
    if Touch(e, k - 1) {
      MergeAfterPrev(ext, k, n);
    } else {
      MergeAfterNoPrev(ext, k, n);
    }
  }

  lemma MergeAfterPrev(ext: seq<Extent>, k: nat, n: Extent)
    requires HolesOk(ext) && 0 < k <= |ext| && End(ext[k - 1]) == n.base
    requires k < |ext| ==> End(n) <= ext[k].base
    ensures MergeAt(Inserted(ext, k, n), k - 1) == CoalesceAt(ext, k, n)
  {
    var e := Inserted(ext, k, n);
    assert e[k - 1] == ext[k - 1] && e[k] == n;
    var p := Extent(ext[k - 1].base, ext[k - 1].len + n.len);
    var e1 := ext[..k - 1] + [p] + ext[k..];
    assert Joined(e, k - 1) == e1;
    assert Absorb(e, k - 1) == (e1, k - 1);
    if k < |ext| {
      PrevThenNext(ext, k, n, p, e1);
    } else {
      assert |e1| == k;
    }
  }

  /** The second step of merge once n has joined its predecessor p. */
  lemma PrevThenNext(ext: seq<Extent>, k: nat, n: Extent, p: Extent, e1: seq<Extent>)
    requires HolesOk(ext) && 0 < k < |ext| && End(ext[k - 1]) == n.base && End(n) <= ext[k].base
    requires p == Extent(ext[k - 1].base, ext[k - 1].len + n.len)
    requires e1 == ext[..k - 1] + [p] + ext[k..]
    ensures (if k < |e1| then Absorb(e1, k - 1).0 else e1) == CoalesceAt(ext, k, n)
  {
    assert e1[k - 1] == p && e1[k] == ext[k];
    if Touch(e1, k - 1) {
      assert Joined(e1, k - 1) == ext[..k - 1] + [Extent(p.base, End(ext[k]) - p.base)] + ext[k + 1..];
    }
  }

  lemma MergeAfterNoPrev(ext: seq<Extent>, k: nat, n: Extent)
    requires HolesOk(ext) && 0 < k <= |ext| && End(ext[k - 1]) < n.base
    requires k < |ext| ==> End(n) <= ext[k].base
    ensures MergeAt(Inserted(ext, k, n), k - 1) == CoalesceAt(ext, k, n)
  {
    var e := Inserted(ext, k, n);
    assert e[k - 1] == ext[k - 1] && e[k] == n;
    if k < |ext| {
      assert e[k + 1] == ext[k];
      if Touch(e, k) {
        assert Joined(e, k) == ext[..k] + [Extent(n.base, End(ext[k]) - n.base)] + ext[k + 1..];
      }
    }
  }

  /** free_mem's list operations give the intended coalesced list. */
  lemma FreedIsCoalesced(ext: seq<Extent>, base: nat, clicks: nat)
    requires HolesOk(ext) && Returnable(ext, base, clicks)
    ensures Freed(ext, base, clicks) == Coalesced(ext, base, clicks)
  {
    if clicks > 0 {
      var k := InsertPos(ext, base);
      Neighbours(ext, base, clicks);
      if k == 0 {
        MergeFront(ext, Extent(base, clicks));
      } else {
        MergeAfter(ext, k, Extent(base, clicks));
      }
    }
  }

  /**
   * Freeing a returnable block keeps the hole list sorted with no two holes
   * touching, frees exactly the block's clicks and adds `clicks` to the free
   * total.
   */
  lemma FreeReturnsBlock(ext: seq<Extent>, base: nat, clicks: nat)
    requires HolesOk(ext) && Returnable(ext, base, clicks)
    ensures var ext' := Freed(ext, base, clicks);
      && HolesOk(ext')
      && (forall a: nat :: Free(ext', a) <==> Free(ext, a) || base <= a < base + clicks)
      && TotalLen(ext') == TotalLen(ext) + clicks
  {
    FreedIsCoalesced(ext, base, clicks);
    if clicks > 0 {
      var k := InsertPos(ext, base);
      Neighbours(ext, base, clicks);
      assert FitsAt(ext, k, Extent(base, clicks));
      CoalesceAtFrees(ext, k, Extent(base, clicks));
      CoalesceAtSorted(ext, k, Extent(base, clicks));
    }
  }

  /** Block n fits between the holes around position k. */
  predicate FitsAt(ext: seq<Extent>, k: nat, n: Extent)
  {
    && k <= |ext| && n.len > 0
    && (k > 0 ==> End(ext[k - 1]) <= n.base)
    && (k < |ext| ==> End(n) <= ext[k].base)
  }

  /** The holes n joins, and n, are exactly the clicks of the merged hole. */
  lemma CoHoleClicks(ext: seq<Extent>, k: nat, n: Extent, a: nat)
    requires HolesOk(ext) && FitsAt(ext, k, n)
    ensures In(CoHole(ext, k, n), a) <==> Free(ext[CoLo(ext, k, n)..CoHi(ext, k, n)], a) || In(n, a)
  {
    var lo, hi := CoLo(ext, k, n), CoHi(ext, k, n);
    var mid := ext[lo..hi];
    if JoinsPrev(ext, k, n) && JoinsNext(ext, k, n) {
      assert mid == [ext[k - 1]] + [ext[k]];
      FreeConcat([ext[k - 1]], [ext[k]], a);
      FreeSingle(ext[k - 1], a);
      FreeSingle(ext[k], a);
    } else if JoinsPrev(ext, k, n) {
      assert mid == [ext[k - 1]];
      FreeSingle(ext[k - 1], a);
    } else if JoinsNext(ext, k, n) {
      assert mid == [ext[k]];
      FreeSingle(ext[k], a);
    } else {
      assert mid == [];
    }
  }

  /** The merged hole is as long as n and the holes it joins together. */
  lemma CoHoleLen(ext: seq<Extent>, k: nat, n: Extent)
    requires HolesOk(ext) && FitsAt(ext, k, n)
    ensures CoHole(ext, k, n).len == TotalLen(ext[CoLo(ext, k, n)..CoHi(ext, k, n)]) + n.len
  {
    var lo, hi := CoLo(ext, k, n), CoHi(ext, k, n);
    var mid := ext[lo..hi];
    if JoinsPrev(ext, k, n) && JoinsNext(ext, k, n) {
      assert mid == [ext[k - 1]] + [ext[k]];
      TotalLenConcat([ext[k - 1]], [ext[k]]);
      TotalLenSingle(ext[k - 1]);
      TotalLenSingle(ext[k]);
    } else if JoinsPrev(ext, k, n) {
      assert mid == [ext[k - 1]];
      TotalLenSingle(ext[k - 1]);
    } else if JoinsNext(ext, k, n) {
      assert mid == [ext[k]];
      TotalLenSingle(ext[k]);
    } else {
      assert mid == [];
    }
  }

  /** The merged hole keeps a gap to the holes on either side of it. */
  lemma CoHoleGaps(ext: seq<Extent>, k: nat, n: Extent)
    requires HolesOk(ext) && FitsAt(ext, k, n) && End(n) <= PHYS_LIMIT
    ensures var lo, hi, m := CoLo(ext, k, n), CoHi(ext, k, n), CoHole(ext, k, n);
      && lo <= hi <= |ext| && m.len > 0 && End(m) <= PHYS_LIMIT
      && (lo > 0 ==> End(ext[lo - 1]) < m.base)
      && (hi < |ext| ==> End(m) < ext[hi].base)
  {
    if JoinsPrev(ext, k, n) && k - 1 > 0 {
      assert End(ext[k - 2]) < ext[k - 1].base;
    }
    if JoinsNext(ext, k, n) && k + 1 < |ext| {
      assert End(ext[k]) < ext[k + 1].base;
    }
  }

  /** CoalesceAt frees exactly n's clicks besides the old ones, and adds n's length. */
  lemma CoalesceAtFrees(ext: seq<Extent>, k: nat, n: Extent)
    requires HolesOk(ext) && FitsAt(ext, k, n)
    ensures forall a: nat :: Free(CoalesceAt(ext, k, n), a) <==> Free(ext, a) || In(n, a)
    ensures TotalLen(CoalesceAt(ext, k, n)) == TotalLen(ext) + n.len
  {
    var lo, hi, m := CoLo(ext, k, n), CoHi(ext, k, n), CoHole(ext, k, n);
    assert lo <= hi <= |ext|;
    var x, mid, y := ext[..lo], ext[lo..hi], ext[hi..];
    assert ext == x + mid + y;
    assert CoalesceAt(ext, k, n) == x + [m] + y;
    forall a: nat
      ensures Free(CoalesceAt(ext, k, n), a) <==> Free(ext, a) || In(n, a)
    {
      CoalesceClick(ext, k, n, a);
    }
    Join3(x, m, y);
    CoHoleLen(ext, k, n);
    TotalLenConcat(x + mid, y);
    TotalLenConcat(x, mid);
  }

  /** One click's state after CoalesceAt. */
  lemma CoalesceClick(ext: seq<Extent>, k: nat, n: Extent, a: nat)
    requires HolesOk(ext) && FitsAt(ext, k, n)
    ensures Free(CoalesceAt(ext, k, n), a) <==> Free(ext, a) || In(n, a)
  {
    var lo, hi, m := CoLo(ext, k, n), CoHi(ext, k, n), CoHole(ext, k, n);
    assert lo <= hi <= |ext|;
    var x, mid, y := ext[..lo], ext[lo..hi], ext[hi..];
    assert ext == x + mid + y;
    CoHoleClicks(ext, k, n, a);
    Join3(x, m, y);
    FreeConcat(x + mid, y, a);
    FreeConcat(x, mid, a);
  }

  /** CoalesceAt keeps the list sorted with gaps between neighbours. */
  lemma CoalesceAtSorted(ext: seq<Extent>, k: nat, n: Extent)
    requires HolesOk(ext) && FitsAt(ext, k, n) && End(n) <= PHYS_LIMIT
    ensures HolesOk(CoalesceAt(ext, k, n))
  {
    CoHoleGaps(ext, k, n);
    SpliceSorted(ext, CoLo(ext, k, n), CoHi(ext, k, n), CoHole(ext, k, n));
  }

  /** Replacing ext[lo..hi] by one hole that fits between its neighbours keeps the list sorted with gaps. */
  lemma SpliceSorted(ext: seq<Extent>, lo: nat, hi: nat, m: Extent)
    requires HolesOk(ext) && lo <= hi <= |ext| && m.len > 0 && End(m) <= PHYS_LIMIT
    requires lo > 0 ==> End(ext[lo - 1]) < m.base
    requires hi < |ext| ==> End(m) < ext[hi].base
    ensures HolesOk(ext[..lo] + [m] + ext[hi..])
  {
    var r := ext[..lo] + [m] + ext[hi..];
    forall j | 0 <= j < |r|
      ensures r[j] == if j < lo then ext[j] else if j == lo then m else ext[hi + j - lo - 1]
    {
    }
    forall j | 0 <= j < |r|
      ensures r[j].len > 0 && End(r[j]) <= PHYS_LIMIT
    {
    }
    forall j | 0 <= j < |r| - 1
      ensures End(r[j]) < r[j + 1].base
    {
      if j + 1 < lo {
        assert r[j] == ext[j] && r[j + 1] == ext[j + 1];
      } else if j > lo {
        assert r[j] == ext[hi + j - lo - 1] && r[j + 1] == ext[hi + j - lo];
      }
    }
  }

  // ---------------------------------------------------------------------------
  // mem_init

  /** The holes after mem_init has freed chunks[j..] from the last one down. */
  function InitHoles(chunks: seq<Extent>, j: nat): seq<Extent>
    requires j <= |chunks|
    decreases |chunks| - j
  {
    if j == |chunks| then []
    else Freed(InitHoles(chunks, j + 1), chunks[j].base, chunks[j].len)
  }

  /** The sizes of the chunks, summed. */
  function SumSizes(chunks: seq<Extent>): nat
  {
    if |chunks| == 0 then 0 else chunks[0].len + SumSizes(chunks[1..])
  }

  /** Chunks that lie inside the click space and do not overlap. */
  ghost predicate ChunksOk(chunks: seq<Extent>)
  {
    && (forall i :: 0 <= i < |chunks| ==> End(chunks[i]) <= PHYS_LIMIT)
    && (forall i, j, a: nat :: 0 <= i < j < |chunks| && In(chunks[i], a) ==> !In(chunks[j], a))
  }

  /**
   * mem_init's holes: sorted with gaps, free exactly where some chunk is,
   * as many clicks as the sizes add up to, and no more holes than chunks.
   */
  lemma {:induction false} InitHolesOk(chunks: seq<Extent>, j: nat)
    requires j <= |chunks| && ChunksOk(chunks)
    ensures var ext := InitHoles(chunks, j);
      && HolesOk(ext)
      && (forall a: nat :: Free(ext, a) <==> exists i :: j <= i < |chunks| && In(chunks[i], a))
      && TotalLen(ext) == SumSizes(chunks[j..])
      && |ext| <= |chunks| - j
    decreases |chunks| - j
  {
    if j < |chunks| {
      var prior := InitHoles(chunks, j + 1);
      InitHolesOk(chunks, j + 1);
      var c := chunks[j];
      assert Returnable(prior, c.base, c.len) by {
        forall a: nat | c.base <= a < c.base + c.len
          ensures !Free(prior, a)
        {
          assert In(chunks[j], a);
        }
      }
      FreeReturnsBlock(prior, c.base, c.len);
      FreedCount(prior, c.base, c.len);
      assert chunks[j..][1..] == chunks[j + 1..];
    } else {
      FreeEmpty();
    }
  }

  /** Freeing adds at most one hole. */
  lemma FreedCount(ext: seq<Extent>, base: nat, clicks: nat)
    requires HolesOk(ext) && Returnable(ext, base, clicks)
    ensures |Freed(ext, base, clicks)| <= |ext| + 1
  {
    FreedIsCoalesced(ext, base, clicks);
  }
}
