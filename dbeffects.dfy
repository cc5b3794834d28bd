/*
 * The file states db_store, db_delete and _db_findfree leave behind, as
 * functions of the state before, and what each does to the invariant and
 * to the key/data association a reader sees.
 */
module DbEffects {
  import opened KConst
  import opened DbCodec
  import opened DbFile
  import opened Seqs
  import opened DbLookup

  // ---------------------------------------------------------------------------
  // Appending a new record (db_store when no free record fits)

  /** The index record db_store appends for key: it points at the chain's old head. */
  function NewRecord(f: Files, s: nat, key: seq<char>, data: seq<char>): Record
    requires s < |f.heads|
  {
    Record(f.heads[s], key, f.datEnd, |data| + 1)
  }

  /** The data record appended, then the index record appended, then the chain head pointing at it. */
  function Appended(f: Files, s: nat, key: seq<char>, data: seq<char>): Files
    requires |f.heads| == NSLOTS && s < NSLOTS
  {
    SlotPtr(AppendIdx(AppendDat(f, data), NewRecord(f, s, key, data)), s);
    SetPtr(AppendIdx(AppendDat(f, data), NewRecord(f, s, key, data)), SlotOff(s), f.idxEnd)
  }

  /** The lists after the appended record has become the head of chain s. */
  function PushLists(lists: seq<seq<nat>>, s: nat, off: nat): seq<seq<nat>>
    requires s < |lists|
  {
    lists[s := [off] + lists[s]]
  }

  /** Records other than off keep their key, data offset and data, and none of them has its data at d. */
  ghost predicate KeepsOthers(f: Files, g: Files, off: nat, d: nat)
  {
    && (forall o :: o in f.idx && o != off ==> o in g.idx && g.idx[o].key == f.idx[o].key && g.idx[o].datoff == f.idx[o].datoff)
    && (forall x :: x in f.dat && x != d ==> x in g.dat && g.dat[x] == f.dat[x])
    && (forall o :: o in f.idx && o != off ==> f.idx[o].datoff != d)
  }

  /** A list of records other than off shows the same pairs. */
  lemma AgreeOnList(f: Files, g: Files, l: seq<nat>, off: nat, d: nat)
    requires DataOk(f.idx, f.dat, f.datEnd) && KeepsOthers(f, g, off, d)
    requires forall i :: 0 <= i < |l| ==> l[i] in f.idx && l[i] != off
    ensures AgreeAll(f, g, l)
  {
    AgreeAllFrame(f, g, l);
  }

  /** Every hash chain without off shows the same pairs. */
  lemma AgreeOnLists(f: Files, lists: seq<seq<nat>>, g: Files, off: nat, d: nat)
    requires ListsOk(f, lists) && DataOk(f.idx, f.dat, f.datEnd) && KeepsOthers(f, g, off, d)
    ensures forall t :: 1 <= t < NSLOTS && off !in lists[t] ==> AgreeAll(f, g, lists[t])
  {
    forall t | 1 <= t < NSLOTS && off !in lists[t]
      ensures AgreeAll(f, g, lists[t])
    {
      OnList(f, lists, t);
      forall i | 0 <= i < |lists[t]|
        ensures lists[t][i] != off
      {
        assert lists[t][i] in lists[t];
      }
      AgreeOnList(f, g, lists[t], off, d);
    }
  }

  /** A record that is not in the index is on no list. */
  lemma NotOnLists(f: Files, lists: seq<seq<nat>>, off: nat)
    requires ListsOk(f, lists) && off !in f.idx
    ensures forall u :: 0 <= u < NSLOTS ==> off !in lists[u]
  {
    forall u | 0 <= u < NSLOTS
      ensures off !in lists[u]
    {
      OnList(f, lists, u);
    }
  }

  /** Pointing chain s's head at a record on no list whose pointer holds the old head puts it in front. */
  lemma PushNew(f: Files, lists: seq<seq<nat>>, s: nat, off: nat, key: seq<char>)
    requires ListsOk(f, lists) && 1 <= s < NSLOTS
    requires REC_START <= off <= PTR_MAX && forall u :: 0 <= u < NSLOTS ==> off !in lists[u]
    requires off in f.idx && f.idx[off].next == f.heads[s] && f.idx[off].key == key
    requires forall i :: 0 <= i < |lists[s]| ==> KeyOf(f, lists[s][i]) != key
    ensures PtrLoc(f, SlotOff(s)) && ListsOk(SetPtr(f, SlotOff(s), off), PushLists(lists, s, off))
  {
    OnList(f, lists, s);
    PushOk(f, lists, s, off, f.idx[off]);
    SlotPtr(f, s);
    assert SetPtr(f, SlotOff(s), off) == Push(f, s, off, f.idx[off]);
  }

  lemma AppendLists(f: Files, lists: seq<seq<nat>>, s: nat, key: seq<char>, data: seq<char>)
    requires ListsOk(f, lists) && 1 <= s < NSLOTS
    requires f.idxEnd !in f.idx && REC_START <= f.idxEnd <= PTR_MAX
    requires forall i :: 0 <= i < |lists[s]| ==> KeyOf(f, lists[s][i]) != key
    ensures ListsOk(Appended(f, s, key, data), PushLists(lists, s, f.idxEnd))
  {
    var g := AppendIdx(AppendDat(f, data), NewRecord(f, s, key, data));
    NotOnLists(f, lists, f.idxEnd);
    ListsOkFrame(f, lists, g, f.idxEnd);
    OnList(f, lists, s);
    assert forall i :: 0 <= i < |lists[s]| ==> KeyOf(g, lists[s][i]) == KeyOf(f, lists[s][i]);
    PushNew(g, lists, s, f.idxEnd, key);
  }

  lemma AppendSpace(f: Files, order: seq<nat>, s: nat, key: seq<char>, data: seq<char>)
    requires SpaceOk(f, order) && |f.heads| == NSLOTS && 1 <= s < NSLOTS
    requires IdxLenOk(key, f.datEnd, |data| + 1)
    ensures SpaceOk(Appended(f, s, key, data), order + [f.idxEnd])
    ensures f.idxEnd !in f.idx && f.datEnd !in f.dat
  {
    var r := NewRecord(f, s, key, data);
    var g := AppendIdx(AppendDat(f, data), r);
    SpaceAppend(f, order, r, data);
    SlotPtr(g, s);
    var h := Appended(f, s, key, data);
    assert h.idx == g.idx && h.dat == g.dat && h.idxEnd == g.idxEnd && h.datEnd == g.datEnd;
  }

  /**
   * Appending a record for a key its chain does not hold keeps the
   * invariant; a lookup of the key then finds the new data, and every
   * other key finds what it found before.
   */
  lemma AppendGood(f: Files, lists: seq<seq<nat>>, order: seq<nat>, s: nat, key: seq<char>, data: seq<char>)
    requires Good(f, lists, order) && s == SlotOf(key)
    requires forall i :: 0 <= i < |lists[s]| ==> KeyOf(f, lists[s][i]) != key
    requires IdxLenOk(key, f.datEnd, |data| + 1) && f.idxEnd <= PTR_MAX
    ensures Good(Appended(f, s, key, data), PushLists(lists, s, f.idxEnd), order + [f.idxEnd])
    ensures Lookup(Appended(f, s, key, data), PushLists(lists, s, f.idxEnd), key) == Some(data)
    ensures forall k :: k != key ==> Lookup(Appended(f, s, key, data), PushLists(lists, s, f.idxEnd), k) == Lookup(f, lists, k)
  {
    TiledStart(f.idx, order, f.idxEnd);
    AppendLists(f, lists, s, key, data);
    AppendSpace(f, order, s, key, data);
    AppendLookup(f, lists, s, key, data);
  }

  lemma AppendLookup(f: Files, lists: seq<seq<nat>>, s: nat, key: seq<char>, data: seq<char>)
    requires ListsOk(f, lists) && DataOk(f.idx, f.dat, f.datEnd) && s == SlotOf(key) && f.idxEnd !in f.idx
    ensures Lookup(Appended(f, s, key, data), PushLists(lists, s, f.idxEnd), key) == Some(data)
    ensures forall k :: k != key ==> Lookup(Appended(f, s, key, data), PushLists(lists, s, f.idxEnd), k) == Lookup(f, lists, k)
  {
    var h := Appended(f, s, key, data);
    var g := AppendIdx(AppendDat(f, data), NewRecord(f, s, key, data));
    SlotPtr(g, s);
    assert h.idx == f.idx[f.idxEnd := NewRecord(f, s, key, data)] && h.dat == f.dat[f.datEnd := data];
    assert KeepsOthers(f, h, f.idxEnd, f.datEnd);
    NotOnLists(f, lists, f.idxEnd);
    AgreeOnLists(f, lists, h, f.idxEnd, f.datEnd);
    LookupPushed(f, lists, h, PushLists(lists, s, f.idxEnd), f.idxEnd, key);
  }

  /** When _db_writeidx gives up, only the data record has been appended: nothing a reader sees changes. */
  lemma AppendDatGood(f: Files, lists: seq<seq<nat>>, order: seq<nat>, data: seq<char>)
    requires Good(f, lists, order)
    ensures Good(AppendDat(f, data), lists, order)
    ensures forall k :: Lookup(AppendDat(f, data), lists, k) == Lookup(f, lists, k)
  {
    var g := AppendDat(f, data);
    ListsOkDat(f, lists, g.dat);
    assert g.(datEnd := f.datEnd) == f.(dat := g.dat);
    assert KeepsOthers(f, g, f.idxEnd, f.datEnd);
    AgreeOnLists(f, lists, g, f.idxEnd, f.datEnd);
    TiledStart(f.idx, order, f.idxEnd);
    NotOnLists(f, lists, f.idxEnd);
    LookupAll(f, lists, g, lists);
  }

  /** When the chain head cannot take the new offset, the record is in the file but on no list. */
  lemma AppendIdxGood(f: Files, lists: seq<seq<nat>>, order: seq<nat>, s: nat, key: seq<char>, data: seq<char>)
    requires Good(f, lists, order) && 1 <= s < NSLOTS
    requires IdxLenOk(key, f.datEnd, |data| + 1)
    ensures Good(AppendIdx(AppendDat(f, data), NewRecord(f, s, key, data)), lists, order + [f.idxEnd])
    ensures forall k :: Lookup(AppendIdx(AppendDat(f, data), NewRecord(f, s, key, data)), lists, k) == Lookup(f, lists, k)
  {
    var r := NewRecord(f, s, key, data);
    SpaceAppend(f, order, r, data);
    TiledStart(f.idx, order, f.idxEnd);
    AppendIdxLists(f, lists, r, data);
  }

  lemma AppendIdxLists(f: Files, lists: seq<seq<nat>>, r: Record, data: seq<char>)
    requires ListsOk(f, lists) && DataOk(f.idx, f.dat, f.datEnd) && f.idxEnd !in f.idx
    ensures ListsOk(AppendIdx(AppendDat(f, data), r), lists)
    ensures forall k :: Lookup(AppendIdx(AppendDat(f, data), r), lists, k) == Lookup(f, lists, k)
  {
    var g := AppendIdx(AppendDat(f, data), r);
    NotOnLists(f, lists, f.idxEnd);
    ListsOkFrame(f, lists, g, f.idxEnd);
    assert KeepsOthers(f, g, f.idxEnd, f.datEnd);
    AgreeOnLists(f, lists, g, f.idxEnd, f.datEnd);
    LookupAll(f, lists, g, lists);
  }

  // ---------------------------------------------------------------------------
  // Taking a record off the free list (_db_findfree)

  /** The position of the first record on l with the given key length and data length, or |l|. */
  function FreePos(f: Files, l: seq<nat>, keylen: nat, datlen: nat): (q: nat)
    ensures q <= |l|
    ensures q < |l| ==> l[q] in f.idx && |f.idx[l[q]].key| == keylen && f.idx[l[q]].datlen == datlen
    ensures forall i :: 0 <= i < q ==> !(l[i] in f.idx && |f.idx[l[i]].key| == keylen && f.idx[l[i]].datlen == datlen)
  {
    if |l| == 0 then 0
    else if l[0] in f.idx && |f.idx[l[0]].key| == keylen && f.idx[l[0]].datlen == datlen then 0
    else 1 + FreePos(f, l[1..], keylen, datlen)
  }

  lemma {:induction false} FreePosIs(f: Files, l: seq<nat>, keylen: nat, datlen: nat, q: nat)
    requires q <= |l| && (q < |l| ==> l[q] in f.idx && |f.idx[l[q]].key| == keylen && f.idx[l[q]].datlen == datlen)
    requires forall i :: 0 <= i < q ==> !(l[i] in f.idx && |f.idx[l[i]].key| == keylen && f.idx[l[i]].datlen == datlen)
    ensures FreePos(f, l, keylen, datlen) == q
  {
    if q > 0 {
      FreePosIs(f, l[1..], keylen, datlen, q - 1);
    }
  }

  /** Unlinking a free record keeps the invariant. */
  lemma UnlinkFreeGood(f: Files, lists: seq<seq<nat>>, order: seq<nat>, q: nat)
    requires Good(f, lists, order) && q < |lists[0]|
    ensures Good(Unlink(f, lists, 0, q), lists[0 := Remove(lists[0], q)], order)
  {
    UnlinkOk(f, lists, 0, q);
    assert SameShape(f, Unlink(f, lists, 0, q));
    SpaceSame(f, Unlink(f, lists, 0, q), order);
  }

  /** Unlinking a free record changes no lookup. */
  lemma UnlinkFreeLookup(f: Files, lists: seq<seq<nat>>, q: nat)
    requires ListsOk(f, lists) && DataOk(f.idx, f.dat, f.datEnd) && q < |lists[0]|
    ensures forall k :: Lookup(Unlink(f, lists, 0, q), lists[0 := Remove(lists[0], q)], k) == Lookup(f, lists, k)
  {
    var g := Unlink(f, lists, 0, q);
    UnlinkOk(f, lists, 0, q);
    OnList(f, lists, 0);
    AgreeOnLists(f, lists, g, lists[0][q], f.datEnd);
    LookupAll(f, lists, g, lists[0 := Remove(lists[0], q)]);
  }

  /**
   * An unlinked free record keeps its key and lengths and is then on no
   * list; the hash chains, the file ends and every key are as before.
   */
  lemma UnlinkFreeRecord(f: Files, lists: seq<seq<nat>>, q: nat)
    requires ListsOk(f, lists) && q < |lists[0]|
    ensures var g := Unlink(f, lists, 0, q); var lists' := lists[0 := Remove(lists[0], q)]; var off := lists[0][q];
      && g.idxEnd == f.idxEnd && g.datEnd == f.datEnd
      && off in g.idx && g.idx[off].key == f.idx[off].key && g.idx[off].datoff == f.idx[off].datoff && g.idx[off].datlen == f.idx[off].datlen
      && REC_START <= off <= PTR_MAX && (forall u :: 0 <= u < NSLOTS ==> off !in lists'[u])
      && (forall u :: 1 <= u < NSLOTS ==> g.heads[u] == f.heads[u] && lists'[u] == lists[u])
      && (forall x :: KeyOf(g, x) == KeyOf(f, x))
  {
    UnlinkOk(f, lists, 0, q);
    OnList(f, lists, 0);
    UnlinkHeads(f, lists, q);
  }

  /** Unlinking from the free list changes only the free-list head or a free record's pointer. */
  lemma UnlinkHeads(f: Files, lists: seq<seq<nat>>, q: nat)
    requires ListsOk(f, lists) && q < |lists[0]|
    ensures forall u :: 1 <= u < NSLOTS ==> Unlink(f, lists, 0, q).heads[u] == f.heads[u]
  {
    PredLocOk(f, lists, 0, q);
    SetPtrFrame(f, PredLoc(lists, 0, q), Succ(lists[0], q));
  }

  // ---------------------------------------------------------------------------
  // Reusing a free record (db_store when one fits)

  /** The data written over the free record's data, its index record rewritten for key, the chain head pointing at it. */
  function Reused(f: Files, s: nat, off: nat, key: seq<char>, data: seq<char>): Files
    requires |f.heads| == NSLOTS && s < NSLOTS && off in f.idx
  {
    var r := f.idx[off];
    var f1 := f.(dat := f.dat[r.datoff := data]);
    var f2 := f1.(idx := f1.idx[off := Record(f.heads[s], key, r.datoff, r.datlen)]);
    SlotPtr(f2, s);
    SetPtr(f2, SlotOff(s), off)
  }

  /**
   * Reusing a record that is on no list, with a key and data of its
   * lengths, keeps the invariant; a lookup of the key then finds the new
   * data, and every other key finds what it found before.
   */
  lemma ReuseGood(f: Files, lists: seq<seq<nat>>, order: seq<nat>, s: nat, off: nat, key: seq<char>, data: seq<char>)
    requires Good(f, lists, order) && s == SlotOf(key)
    requires off in f.idx && off <= PTR_MAX && forall u :: 0 <= u < NSLOTS ==> off !in lists[u]
    requires |f.idx[off].key| == |key| && f.idx[off].datlen == |data| + 1
    requires forall i :: 0 <= i < |lists[s]| ==> KeyOf(f, lists[s][i]) != key
    ensures Good(Reused(f, s, off, key, data), PushLists(lists, s, off), order)
    ensures Lookup(Reused(f, s, off, key, data), PushLists(lists, s, off), key) == Some(data)
    ensures forall k :: k != key ==> Lookup(Reused(f, s, off, key, data), PushLists(lists, s, off), k) == Lookup(f, lists, k)
  {
    TiledStart(f.idx, order, f.idxEnd);
    ReuseLists(f, lists, s, off, key, data);
    ReuseSpace(f, order, s, off, key, data);
    ReuseLookup(f, lists, s, off, key, data);
  }

  lemma ReuseLists(f: Files, lists: seq<seq<nat>>, s: nat, off: nat, key: seq<char>, data: seq<char>)
    requires ListsOk(f, lists) && 1 <= s < NSLOTS
    requires off in f.idx && REC_START <= off <= PTR_MAX && forall u :: 0 <= u < NSLOTS ==> off !in lists[u]
    requires forall i :: 0 <= i < |lists[s]| ==> KeyOf(f, lists[s][i]) != key
    ensures ListsOk(Reused(f, s, off, key, data), PushLists(lists, s, off))
  {
    var r := f.idx[off];
    var f2 := f.(dat := f.dat[r.datoff := data]).(idx := f.idx[off := Record(f.heads[s], key, r.datoff, r.datlen)]);
    ListsOkFrame(f, lists, f2, off);
    OnList(f, lists, s);
    assert forall i :: 0 <= i < |lists[s]| ==> KeyOf(f2, lists[s][i]) == KeyOf(f, lists[s][i]);
    PushNew(f2, lists, s, off, key);
  }

  lemma ReuseSpace(f: Files, order: seq<nat>, s: nat, off: nat, key: seq<char>, data: seq<char>)
    requires SpaceOk(f, order) && |f.heads| == NSLOTS && 1 <= s < NSLOTS
    requires off in f.idx && |f.idx[off].key| == |key| && f.idx[off].datlen == |data| + 1
    ensures SpaceOk(Reused(f, s, off, key, data), order)
  {
    var h := Reused(f, s, off, key, data);
    var r := f.idx[off];
    var f2 := f.(dat := f.dat[r.datoff := data]).(idx := f.idx[off := Record(f.heads[s], key, r.datoff, r.datlen)]);
    SlotPtr(f2, s);
    assert h == f2.(heads := f2.heads[s := off]);
    assert SameShape(f, h);
    SpaceSame(f, h, order);
  }

  lemma ReuseLookup(f: Files, lists: seq<seq<nat>>, s: nat, off: nat, key: seq<char>, data: seq<char>)
    requires ListsOk(f, lists) && DataOk(f.idx, f.dat, f.datEnd) && s == SlotOf(key)
    requires off in f.idx && forall u :: 0 <= u < NSLOTS ==> off !in lists[u]
    ensures Lookup(Reused(f, s, off, key, data), PushLists(lists, s, off), key) == Some(data)
    ensures forall k :: k != key ==> Lookup(Reused(f, s, off, key, data), PushLists(lists, s, off), k) == Lookup(f, lists, k)
  {
    var h := Reused(f, s, off, key, data);
    var r := f.idx[off];
    var f2 := f.(dat := f.dat[r.datoff := data]).(idx := f.idx[off := Record(f.heads[s], key, r.datoff, r.datlen)]);
    SlotPtr(f2, s);
    assert h == f2.(heads := f2.heads[s := off]);
    assert KeepsOthers(f, h, off, r.datoff);
    AgreeOnLists(f, lists, h, off, r.datoff);
    LookupPushed(f, lists, h, PushLists(lists, s, off), off, key);
  }

  /**
   * The free record _db_findfree found for a new key fits where Reuse
   * writes it, and writing it leaves the end of the index file in place.
   */
  lemma ReuseReady(f: Files, lists: seq<seq<nat>>, order: seq<nat>, q: nat, key: seq<char>, data: seq<char>, s: nat,
                   f1: Files, off: nat)
    requires Good(f, lists, order) && s == SlotOf(key)
    requires q == FreePos(f, lists[0], |key|, |data| + 1) && q < |lists[0]| && off == lists[0][q]
    requires f1 == Unlink(f, lists, 0, q)
    ensures |f1.heads| == NSLOTS && 1 <= s < NSLOTS && f1.heads[s] == f.heads[s] && f.heads[s] <= PTR_MAX
    ensures off in f1.idx && off <= PTR_MAX && |f1.idx[off].key| == |key| && f1.idx[off].datlen == |data| + 1
    ensures IdxLenOk(f1.idx[off].key, f1.idx[off].datoff, f1.idx[off].datlen)
    ensures Reused(f1, s, off, key, data).idxEnd == f.idxEnd
  {
    UnlinkFreeRecord(f, lists, q);
    OnList(f, lists, s);
    assert IdxLenOk(f.idx[off].key, f.idx[off].datoff, f.idx[off].datlen);
    var r := f1.idx[off];
    var f2 := f1.(dat := f1.dat[r.datoff := data]).(idx := f1.idx[off := Record(f1.heads[s], key, r.datoff, r.datlen)]);
    SlotPtr(f2, s);
  }

  /**
   * db_store reusing the free record _db_findfree found for a new key:
   * the files keep the invariant, the key finds the new data and every
   * other key finds what it found.
   */
  lemma ReuseStep(f: Files, lists: seq<seq<nat>>, order: seq<nat>, q: nat, key: seq<char>, data: seq<char>, s: nat,
                  f1: Files, lists1: seq<seq<nat>>, off: nat)
    requires Good(f, lists, order) && s == SlotOf(key)
    requires q == FreePos(f, lists[0], |key|, |data| + 1) && q < |lists[0]| && off == lists[0][q]
    requires f1 == Unlink(f, lists, 0, q) && lists1 == lists[0 := Remove(lists[0], q)]
    requires forall i :: 0 <= i < |lists[s]| ==> KeyOf(f, lists[s][i]) != key
    requires |f1.heads| == NSLOTS && 1 <= s < NSLOTS && off in f1.idx
    ensures Good(Reused(f1, s, off, key, data), PushLists(lists1, s, off), order)
    ensures Lookup(Reused(f1, s, off, key, data), PushLists(lists1, s, off), key) == Some(data)
    ensures forall k :: k != key ==> Lookup(Reused(f1, s, off, key, data), PushLists(lists1, s, off), k) == Lookup(f, lists, k)
  {
    UnlinkFreeGood(f, lists, order, q);
    UnlinkFreeLookup(f, lists, q);
    UnlinkFreeRecord(f, lists, q);
    ReuseGood(f1, lists1, order, s, off, key, data);
  }

  // ---------------------------------------------------------------------------
  // Overwriting the data of a record of the same length (db_store)

  function Overwritten(f: Files, off: nat, data: seq<char>): Files
    requires off in f.idx
  {
    f.(dat := f.dat[f.idx[off].datoff := data])
  }

  /**
   * Overwriting the data of the record a lookup of key finds, with data of
   * the same length, keeps the invariant and the lists; the lookup then
   * finds the new data, and every other key finds what it found before.
   */
  lemma OverwriteGood(f: Files, lists: seq<seq<nat>>, order: seq<nat>, s: nat, p: nat, key: seq<char>, data: seq<char>)
    requires Good(f, lists, order) && s == SlotOf(key) && p < |lists[s]| && KeyPos(f, lists[s], key) == p
    requires lists[s][p] in f.idx && f.idx[lists[s][p]].datlen == |data| + 1
    ensures Good(Overwritten(f, lists[s][p], data), lists, order)
    ensures Lookup(Overwritten(f, lists[s][p], data), lists, key) == Some(data)
    ensures forall k :: k != key ==> Lookup(Overwritten(f, lists[s][p], data), lists, k) == Lookup(f, lists, k)
  {
    var off := lists[s][p];
    var g := Overwritten(f, off, data);
    assert SameShape(f, g);
    SpaceSame(f, g, order);
    ListsOkDat(f, lists, g.dat);
    OverwriteLookup(f, lists, s, p, key, data);
  }

  lemma OverwriteLookup(f: Files, lists: seq<seq<nat>>, s: nat, p: nat, key: seq<char>, data: seq<char>)
    requires ListsOk(f, lists) && DataOk(f.idx, f.dat, f.datEnd)
    requires s == SlotOf(key) && p < |lists[s]| && KeyPos(f, lists[s], key) == p && lists[s][p] in f.idx
    ensures Lookup(Overwritten(f, lists[s][p], data), lists, key) == Some(data)
    ensures forall k :: k != key ==> Lookup(Overwritten(f, lists[s][p], data), lists, k) == Lookup(f, lists, k)
  {
    var l := lists[s];
    var off := l[p];
    var d := f.idx[off].datoff;
    var g := Overwritten(f, off, data);
    KeyPosIs(g, l, key, p);
    FindInKeyPos(g, l, key);
    forall k | k != key
      ensures Lookup(g, lists, k) == Lookup(f, lists, k)
    {
      var t := SlotOf(k);
      OnList(f, lists, t);
      forall i | 0 <= i < |lists[t]|
        ensures KeyOf(g, lists[t][i]) == KeyOf(f, lists[t][i])
        ensures KeyOf(f, lists[t][i]) == k ==> DataOf(g, lists[t][i]) == DataOf(f, lists[t][i])
      {
        if lists[t][i] != off {
          assert f.idx[lists[t][i]].datoff != d;
        }
      }
      LookupSame(f, lists, g, lists, k);
    }
  }

  // ---------------------------------------------------------------------------
  // Deleting (_db_dodelete)

  /**
   * Deleting the record a lookup of key finds makes the key unfound and
   * leaves every other key finding what it found before.
   */
  lemma DeleteLookup(f: Files, lists: seq<seq<nat>>, order: seq<nat>, s: nat, p: nat, key: seq<char>)
    requires Good(f, lists, order) && s == SlotOf(key) && p < |lists[s]| && KeyOf(f, lists[s][p]) == key
    ensures Deletable(f, lists, s, p)
    ensures Lookup(Deleted(f, lists[s][p], PredLoc(lists, s, p)), DelLists(lists, s, p), key).None?
    ensures forall k :: k != key ==>
      Lookup(Deleted(f, lists[s][p], PredLoc(lists, s, p)), DelLists(lists, s, p), k) == Lookup(f, lists, k)
  {
    DeletableOk(f, lists, order, s, p);
    DeleteLookupFrom(f, lists, s, p, key);
  }

  lemma DeleteLookupFrom(f: Files, lists: seq<seq<nat>>, s: nat, p: nat, key: seq<char>)
    requires ListsOk(f, lists) && DataOk(f.idx, f.dat, f.datEnd)
    requires s == SlotOf(key) && 1 <= s && p < |lists[s]| && KeyOf(f, lists[s][p]) == key && Deletable(f, lists, s, p)
    ensures Lookup(Deleted(f, lists[s][p], PredLoc(lists, s, p)), DelLists(lists, s, p), key).None?
    ensures forall k :: k != key ==>
      Lookup(Deleted(f, lists[s][p], PredLoc(lists, s, p)), DelLists(lists, s, p), k) == Lookup(f, lists, k)
  {
    var l := lists[s];
    var off := l[p];
    var g := Deleted(f, off, PredLoc(lists, s, p));
    DeleteAgree(f, lists, s, p);
    assert KeysUnique(f.idx, l);
    LookupRemoved(f, lists, g, DelLists(lists, s, p), s, p);
  }

  /** After the deletion no record left on the key's chain has the key: a chain holds each key once. */
  lemma DeleteClears(f: Files, lists: seq<seq<nat>>, s: nat, p: nat, key: seq<char>)
    requires ListsOk(f, lists) && DataOk(f.idx, f.dat, f.datEnd)
    requires 1 <= s < NSLOTS && p < |lists[s]| && KeyOf(f, lists[s][p]) == key && Deletable(f, lists, s, p)
    ensures var g := Deleted(f, lists[s][p], PredLoc(lists, s, p)); var l' := DelLists(lists, s, p)[s];
      forall i :: 0 <= i < |l'| ==> KeyOf(g, l'[i]) != key
  {
    var l := lists[s];
    var r := Remove(l, p);
    var g := Deleted(f, l[p], PredLoc(lists, s, p));
    DeleteAgree(f, lists, s, p);
    OnList(f, lists, s);
    assert KeysUnique(f.idx, l);
    forall i | 0 <= i < |r|
      ensures KeyOf(g, r[i]) != key
    {
      var j := if i < p then i else i + 1;
      assert r[i] == l[j] && j != p;
      assert l[j] in f.idx && l[p] in f.idx;
      if j < p {
        assert f.idx[l[j]].key != f.idx[l[p]].key;
      } else {
        assert f.idx[l[p]].key != f.idx[l[j]].key;
      }
      assert KeyOf(g, r[i]) == KeyOf(f, r[i]);
    }
  }

  /** Deleting leaves every remaining record of every chain showing the same pair. */
  lemma DeleteAgree(f: Files, lists: seq<seq<nat>>, s: nat, p: nat)
    requires ListsOk(f, lists) && DataOk(f.idx, f.dat, f.datEnd)
    requires 1 <= s < NSLOTS && p < |lists[s]| && Deletable(f, lists, s, p)
    ensures var g := Deleted(f, lists[s][p], PredLoc(lists, s, p));
      && |DelLists(lists, s, p)| == NSLOTS
      && DelLists(lists, s, p)[s] == Remove(lists[s], p)
      && AgreeAll(f, g, Remove(lists[s], p))
      && forall t :: 1 <= t < NSLOTS && t != s ==> DelLists(lists, s, p)[t] == lists[t] && AgreeAll(f, g, lists[t])
  {
    var l := lists[s];
    var off := l[p];
    var g := Deleted(f, off, PredLoc(lists, s, p));
    DeletedRecords(f, off, PredLoc(lists, s, p));
    assert KeepsOthers(f, g, off, f.idx[off].datoff);
    UnlinkDisjoint(lists, s, p);
    AgreeOnLists(f, lists, g, off, f.idx[off].datoff);
    OnList(f, lists, s);
    assert NoDup(l);
    NoDupPairs(l);
    forall i | 0 <= i < |Remove(l, p)|
      ensures Remove(l, p)[i] in f.idx && Remove(l, p)[i] != off
    {
      RemoveIn(l, p, Remove(l, p)[i]);
    }
    AgreeOnList(f, g, Remove(l, p), off, f.idx[off].datoff);
  }

  /** _db_dodelete's writes at the record at off are all accepted, and its rewritten index record keeps its length. */
  ghost predicate Rewritable(f: Files, off: nat)
  {
    && off in f.idx && |f.heads| == NSLOTS
    && off <= PTR_MAX && f.idx[off].next <= PTR_MAX && f.heads[0] <= PTR_MAX
    && IdxLenOk(Spaces(|f.idx[off].key|), f.idx[off].datoff, f.idx[off].datlen)
    && RecLen(Record(f.heads[0], Spaces(|f.idx[off].key|), f.idx[off].datoff, f.idx[off].datlen)) == RecLen(f.idx[off])
  }

  /**
   * What _db_dodelete's writes need: each write is accepted and the record
   * is rewritten in place with its own length, so the files keep their
   * sizes.
   */
  lemma DeleteReady(f: Files, lists: seq<seq<nat>>, order: seq<nat>, s: nat, p: nat)
    requires Good(f, lists, order) && 0 < s < NSLOTS && p < |lists[s]|
    ensures var off := lists[s][p];
      && off in f.idx && Deletable(f, lists, s, p)
      && Rewritable(f, off)
      && Deleted(f, off, PredLoc(lists, s, p)).idxEnd == f.idxEnd && Deleted(f, off, PredLoc(lists, s, p)).datEnd == f.datEnd
  {
    var off := lists[s][p];
    DeletableOk(f, lists, order, s, p);
    OnList(f, lists, s);
    var r := f.idx[off];
    assert IdxLenOk(r.key, r.datoff, r.datlen);
    IdxLenSameLength(r.key, Spaces(|r.key|), r.datoff, r.datlen);
    DeletedShape(f, off, PredLoc(lists, s, p));
  }
}
