/*
 * The APUE database library's index and data files and the relinking of
 * the lists threaded through them, as values.
 *
 * The index file starts with NHASH_DEF + 1 pointer fields (the free list
 * at offset 0, then one hash chain per hash value) and a newline; index
 * records follow.  Each index record starts with a chain pointer, so the
 * free list and each hash chain are singly linked lists threaded through
 * the records, ending in 0.  Files keeps the pointer fields as a sequence
 * of slots, the index records as a map from file offset to record, and the
 * data file as a map from offset to record text (without its newline); the
 * byte layout of one record is in DbCodec.  The class in DbStore performs
 * the library's writes on a Files value; this module states what each
 * sequence of writes does to the lists and to the key/data association.
 */
module DbFile {
  import opened KConst
  import opened DbCodec
  import opened Seqs

  /** An index record: its chain pointer, key, and data offset and length (newline included). */
  datatype Record = Record(next: nat, key: seq<char>, datoff: nat, datlen: nat)

  /** The two files: pointer slots, index records and data records by offset, and the file sizes. */
  datatype Files = Files(heads: seq<nat>, idx: map<nat, Record>, dat: map<nat, seq<char>>, idxEnd: nat, datEnd: nat)

  /** Pointer slots before the records: the free list and NHASH_DEF hash chains. */
  const NSLOTS: nat := NHASH_DEF + 1

  /** Offset of the first index record: after the slots and the newline (db_rewind). */
  const REC_START: nat := NSLOTS * PTR_SZ + 1

  /** The slot of a key's hash chain (slot 0 is the free list). */
  function SlotOf(key: seq<char>): (s: nat)
    ensures 1 <= s < NSLOTS
  {
    HashSum(key) % NHASH_DEF + 1
  }

  /** The file offset of slot s. */
  function SlotOff(s: nat): nat
  {
    s * PTR_SZ
  }

  /** Slot offsets are the library's: FREE_OFF for the free list, ChainOff(hash) for a chain. */
  lemma SlotOffIsChainOff(key: seq<char>)
    ensures SlotOff(SlotOf(key)) == ChainOff(HashSum(key) % NHASH_DEF)
    ensures SlotOff(0) == FREE_OFF
    ensures SlotOff(SlotOf(key)) < REC_START
  {
  }

  // ---------------------------------------------------------------------------
  // The lists

  /** What follows position i of a list: the next element, or 0 at the end. */
  function Succ(l: seq<nat>, i: nat): nat
    requires i < |l|
  {
    if i + 1 < |l| then l[i + 1] else 0
  }

  /** The list l is threaded from start through the records' chain pointers. */
  ghost predicate Linked(idx: map<nat, Record>, start: nat, l: seq<nat>)
  {
    && start == (if |l| == 0 then 0 else l[0])
    && (forall i :: 0 <= i < |l| ==> l[i] in idx && REC_START <= l[i] <= PTR_MAX)
    && (forall i, j :: 0 <= i && j == i + 1 && j < |l| ==> idx[l[i]].next == l[j])
    && (|l| > 0 ==> idx[l[|l| - 1]].next == 0)
  }

  lemma LinkedNext(idx: map<nat, Record>, start: nat, l: seq<nat>, i: nat)
    requires Linked(idx, start, l) && i < |l|
    ensures l[i] in idx && idx[l[i]].next == Succ(l, i)
  {
    if i + 1 < |l| {
      assert l[i + 1] == l[i + 1];
    }
  }

  /** No record is on two lists, or twice on one. */
  ghost predicate Disjoint(lists: seq<seq<nat>>)
  {
    && (forall s :: 0 <= s < |lists| ==> NoDup(lists[s]))
    && (forall s1, s2, x :: 0 <= s1 < |lists| && 0 <= s2 < |lists| && s1 != s2 && x in lists[s1] ==> x !in lists[s2])
  }

  /** Within one hash chain no key occurs twice. */
  ghost predicate KeysUnique(idx: map<nat, Record>, l: seq<nat>)
  {
    forall i, j :: 0 <= i < j < |l| && l[i] in idx && l[j] in idx ==> idx[l[i]].key != idx[l[j]].key
  }

  /** A key made only of blanks: what db_nextrec skips (the empty key too). */
  predicate Blank(key: seq<char>)
  {
    forall i :: 0 <= i < |key| ==> key[i] == SPACE
  }

  /** Every record on the free list has a blanked key. */
  ghost predicate FreeBlank(idx: map<nat, Record>, l: seq<nat>)
  {
    forall i :: 0 <= i < |l| && l[i] in idx ==> Blank(idx[l[i]].key)
  }

  /** The list part of the invariant: lists[s] is the list threaded from slot s. */
  ghost predicate ListsOk(f: Files, lists: seq<seq<nat>>)
  {
    && |f.heads| == NSLOTS && |lists| == NSLOTS
    && (forall s :: 0 <= s < NSLOTS ==> Linked(f.idx, f.heads[s], lists[s]))
    && Disjoint(lists)
    && (forall s :: 1 <= s < NSLOTS ==> KeysUnique(f.idx, lists[s]))
    && FreeBlank(f.idx, lists[0])
  }

  // ---------------------------------------------------------------------------
  // Where the records lie

  /** Every index record has its own data record of the recorded length. */
  ghost predicate DataOk(idx: map<nat, Record>, dat: map<nat, seq<char>>, datEnd: nat)
  {
    && (forall o :: o in idx ==> idx[o].datoff in dat && |dat[idx[o].datoff]| + 1 == idx[o].datlen)
    && (forall o1, o2 :: o1 in idx && o2 in idx && o1 != o2 ==> idx[o1].datoff != idx[o2].datoff)
    && (forall d :: d in dat ==> d < datEnd)
  }

  /** The body of an index record has a length _db_writeidx accepts. */
  predicate IdxLenOk(key: seq<char>, datoff: nat, datlen: nat)
  {
    IDXLEN_MIN <= |IdxBody(key, datoff, datlen)| <= IDXLEN_MAX
  }

  /** Every record's body has an accepted length (_db_writeidx wrote them all). */
  ghost predicate LengthsOk(idx: map<nat, Record>)
  {
    forall o :: o in idx ==> IdxLenOk(idx[o].key, idx[o].datoff, idx[o].datlen)
  }

  /** The length of a record in the index file: pointer, length field and body. */
  function RecLen(r: Record): nat
  {
    PTR_SZ + IDXLEN_SZ + |IdxBody(r.key, r.datoff, r.datlen)|
  }

  /** The records lie back to back from REC_START to the end of the index file, in file order. */
  ghost predicate Tiled(idx: map<nat, Record>, order: seq<nat>, idxEnd: nat)
  {
    && (forall i :: 0 <= i < |order| ==> order[i] in idx)
    && (forall o :: o in idx ==> o in order)
    && (|order| == 0 ==> idxEnd == REC_START)
    && (|order| > 0 ==> order[0] == REC_START && idxEnd == order[|order| - 1] + RecLen(idx[order[|order| - 1]]))
    && (forall i :: 0 <= i < |order| - 1 ==> order[i + 1] == order[i] + RecLen(idx[order[i]]))
  }

  /** The space part of the invariant. */
  ghost predicate SpaceOk(f: Files, order: seq<nat>)
  {
    DataOk(f.idx, f.dat, f.datEnd) && LengthsOk(f.idx) && Tiled(f.idx, order, f.idxEnd)
  }

  /** The invariant the library keeps between calls. */
  ghost predicate Good(f: Files, lists: seq<seq<nat>>, order: seq<nat>)
  {
    ListsOk(f, lists) && SpaceOk(f, order)
  }

  /** The files db_open creates: every slot 0, no records, an empty data file. */
  function Initial(): Files
  {
    Files(seq(NSLOTS, _ => 0), map[], map[], REC_START, 0)
  }

  /** The fresh files satisfy the invariant with every list empty, and the index file is InitialIndex. */
  lemma InitialGood()
    ensures Good(Initial(), seq(NSLOTS, _ => []), [])
    ensures Initial().idxEnd == |InitialIndex()|
    ensures forall s :: 0 <= s < NSLOTS ==> ReadPtr(InitialIndex()[SlotOff(s)..SlotOff(s) + PTR_SZ]) == Initial().heads[s]
  {
    InitialLayout(0);
    forall s | 0 <= s < NSLOTS
      ensures ReadPtr(InitialIndex()[SlotOff(s)..SlotOff(s) + PTR_SZ]) == Initial().heads[s]
    {
      InitialLayout(s);
    }
  }

  // ---------------------------------------------------------------------------
  // Pointer fields

  /** loc is a pointer field: a slot offset, or the offset of an index record. */
  predicate PtrLoc(f: Files, loc: nat)
  {
    if loc < REC_START then loc % PTR_SZ == 0 && loc / PTR_SZ < |f.heads| else loc in f.idx
  }

  /** _db_readptr: the value of the pointer field at loc. */
  function PtrAt(f: Files, loc: nat): nat
    requires PtrLoc(f, loc)
  {
    if loc < REC_START then f.heads[loc / PTR_SZ] else f.idx[loc].next
  }

  /** _db_writeptr: the pointer field at loc set to v. */
  function SetPtr(f: Files, loc: nat, v: nat): Files
    requires PtrLoc(f, loc)
  {
    if loc < REC_START then f.(heads := f.heads[loc / PTR_SZ := v])
    else f.(idx := f.idx[loc := f.idx[loc].(next := v)])
  }

  /** A pointer write is read back, and no other pointer field changes. */
  lemma SetPtrRead(f: Files, loc: nat, v: nat, other: nat)
    requires PtrLoc(f, loc) && PtrLoc(f, other)
    ensures PtrLoc(SetPtr(f, loc, v), other)
    ensures PtrAt(SetPtr(f, loc, v), other) == if other == loc then v else PtrAt(f, other)
  {
    if loc < REC_START && other < REC_START && other != loc {
      assert other / PTR_SZ != loc / PTR_SZ;
    }
  }

  /** A pointer write changes nothing but that one pointer field. */
  lemma SetPtrFrame(f: Files, loc: nat, v: nat)
    requires PtrLoc(f, loc)
    ensures var g := SetPtr(f, loc, v);
      && g.idx.Keys == f.idx.Keys && g.dat == f.dat && g.idxEnd == f.idxEnd && g.datEnd == f.datEnd
      && |g.heads| == |f.heads|
      && (forall o :: o in f.idx ==> g.idx[o] == f.idx[o].(next := g.idx[o].next))
      && (forall o :: o in f.idx && o != loc ==> g.idx[o] == f.idx[o])
      && (forall t :: 0 <= t < |f.heads| && t * PTR_SZ != loc ==> g.heads[t] == f.heads[t])
  {
    var g := SetPtr(f, loc, v);
    if loc < REC_START {
      forall t | 0 <= t < |f.heads| && t * PTR_SZ != loc
        ensures g.heads[t] == f.heads[t]
      {
        assert t != loc / PTR_SZ;
      }
    }
  }

  /** The pointer field that points at position p of slot s's list. */
  function PredLoc(lists: seq<seq<nat>>, s: nat, p: nat): nat
    requires s < |lists| && p < |lists[s]|
  {
    if p == 0 then SlotOff(s) else lists[s][p - 1]
  }

  lemma PredLocOk(f: Files, lists: seq<seq<nat>>, s: nat, p: nat)
    requires ListsOk(f, lists) && s < NSLOTS && p < |lists[s]|
    ensures PtrLoc(f, PredLoc(lists, s, p)) && PtrAt(f, PredLoc(lists, s, p)) == lists[s][p]
    ensures PredLoc(lists, s, p) < REC_START <==> p == 0
    ensures p == 0 ==> PredLoc(lists, s, p) / PTR_SZ == s
  {
    assert Linked(f.idx, f.heads[s], lists[s]);
  }

  /** Taking position p off slot s's list: its predecessor now points at its successor. */
  function Unlink(f: Files, lists: seq<seq<nat>>, s: nat, p: nat): Files
    requires ListsOk(f, lists) && s < NSLOTS && p < |lists[s]|
  {
    PredLocOk(f, lists, s, p);
    SetPtr(f, PredLoc(lists, s, p), Succ(lists[s], p))
  }

  /** A record put at the front of slot s's list: its chain pointer takes the old head. */
  function Push(f: Files, s: nat, off: nat, r: Record): Files
    requires s < |f.heads|
  {
    f.(idx := f.idx[off := r.(next := f.heads[s])], heads := f.heads[s := off])
  }

  lemma LinkedFrame(idx: map<nat, Record>, idx': map<nat, Record>, h: nat, l: seq<nat>)
    requires Linked(idx, h, l)
    requires forall i :: 0 <= i < |l| ==> l[i] in idx' && idx'[l[i]].next == idx[l[i]].next
    ensures Linked(idx', h, l)
  {
  }

  lemma LinkedRemove(idx: map<nat, Record>, idx': map<nat, Record>, h: nat, h': nat, l: seq<nat>, p: nat)
    requires Linked(idx, h, l) && NoDup(l) && p < |l|
    requires forall i :: 0 <= i < |l| ==> l[i] in idx'
    requires forall i :: 0 <= i < |l| && i + 1 != p ==> idx'[l[i]].next == idx[l[i]].next
    requires p == 0 ==> h' == Succ(l, 0)
    requires p > 0 ==> h' == h && idx'[l[p - 1]].next == Succ(l, p)
    ensures Linked(idx', h', Remove(l, p))
  {
    var r := Remove(l, p);
    forall i | 0 <= i < |r|
      ensures r[i] in idx' && REC_START <= r[i] <= PTR_MAX && idx'[r[i]].next == Succ(r, i)
    {
      if i + 1 < p {
        assert r[i] == l[i] && r[i + 1] == l[i + 1];
      } else if i + 1 == p {
        assert r[i] == l[i];
      } else {
        assert r[i] == l[i + 1];
      }
    }
  }

  lemma UnlinkLinked(f: Files, lists: seq<seq<nat>>, s: nat, p: nat, t: nat)
    requires ListsOk(f, lists) && s < NSLOTS && p < |lists[s]| && t < NSLOTS
    ensures var g := Unlink(f, lists, s, p); var lists' := lists[s := Remove(lists[s], p)];
      Linked(g.idx, g.heads[t], lists'[t])
  {
    var g := Unlink(f, lists, s, p);
    var l := lists[s];
    var loc := PredLoc(lists, s, p);
    PredLocOk(f, lists, s, p);
    assert Linked(f.idx, f.heads[t], lists[t]);
    assert Linked(f.idx, f.heads[s], l);
    assert forall e :: e in f.idx && e != loc ==> e in g.idx && g.idx[e] == f.idx[e];
    assert loc >= REC_START ==> loc in g.idx && g.idx[loc].next == Succ(l, p);
    if t != s {
      assert g.heads[t] == f.heads[t];
      forall i | 0 <= i < |lists[t]|
        ensures lists[t][i] != loc
      {
        if p > 0 {
          assert l[p - 1] in l;
          assert lists[t][i] in lists[t];
        }
      }
      LinkedFrame(f.idx, g.idx, f.heads[t], lists[t]);
    } else {
      assert NoDup(l);
      NoDupPairs(l);
      forall i | 0 <= i < |l| && i + 1 != p
        ensures l[i] != loc
      {
      }
      LinkedRemove(f.idx, g.idx, f.heads[s], g.heads[s], l, p);
    }
  }

  lemma UnlinkDisjoint(lists: seq<seq<nat>>, s: nat, p: nat)
    requires Disjoint(lists) && s < |lists| && p < |lists[s]|
    ensures Disjoint(lists[s := Remove(lists[s], p)])
    ensures lists[s][p] !in Remove(lists[s], p)
    ensures forall t :: 0 <= t < |lists| && t != s ==> lists[s][p] !in lists[t]
  {
    var l := lists[s];
    var lists' := lists[s := Remove(l, p)];
    RemoveNoDup(l, p);
    forall x | x in Remove(l, p)
      ensures x in l && x != l[p]
    {
      RemoveIn(l, p, x);
    }
    RemoveIn(l, p, l[p]);
    forall t | 0 <= t < |lists| && t != s
      ensures l[p] !in lists[t]
    {
      assert l[p] in l;
    }
  }

  lemma KeysRemove(idx: map<nat, Record>, idx': map<nat, Record>, l: seq<nat>, p: nat)
    requires KeysUnique(idx, l) && p < |l|
    requires forall i :: 0 <= i < |l| && l[i] in idx ==> l[i] in idx' && idx'[l[i]].key == idx[l[i]].key
    requires forall i :: 0 <= i < |l| ==> l[i] in idx
    ensures KeysUnique(idx', Remove(l, p))
  {
    var r := Remove(l, p);
    forall i, j | 0 <= i < j < |r| && r[i] in idx' && r[j] in idx'
      ensures idx'[r[i]].key != idx'[r[j]].key
    {
      var i' := if i < p then i else i + 1;
      var j' := if j < p then j else j + 1;
      assert r[i] == l[i'] && r[j] == l[j'];
    }
  }

  lemma BlankRemove(idx: map<nat, Record>, idx': map<nat, Record>, l: seq<nat>, p: nat)
    requires FreeBlank(idx, l) && p < |l|
    requires forall i :: 0 <= i < |l| && l[i] in idx ==> l[i] in idx' && idx'[l[i]].key == idx[l[i]].key
    requires forall i :: 0 <= i < |l| ==> l[i] in idx
    ensures FreeBlank(idx', Remove(l, p))
  {
    var r := Remove(l, p);
    forall i | 0 <= i < |r| && r[i] in idx'
      ensures Blank(idx'[r[i]].key)
    {
      var i' := if i < p then i else i + 1;
      assert r[i] == l[i'];
    }
  }

  lemma UnlinkOk(f: Files, lists: seq<seq<nat>>, s: nat, p: nat)
    requires ListsOk(f, lists) && s < NSLOTS && p < |lists[s]|
    ensures ListsOk(Unlink(f, lists, s, p), lists[s := Remove(lists[s], p)])
    ensures lists[s][p] !in Remove(lists[s], p)
    ensures forall t :: 0 <= t < NSLOTS && t != s ==> lists[s][p] !in lists[t]
    ensures Unlink(f, lists, s, p).idx.Keys == f.idx.Keys
    ensures Unlink(f, lists, s, p).dat == f.dat && Unlink(f, lists, s, p).idxEnd == f.idxEnd
    ensures Unlink(f, lists, s, p).datEnd == f.datEnd
    ensures forall o :: o in f.idx ==> Unlink(f, lists, s, p).idx[o] == f.idx[o].(next := Unlink(f, lists, s, p).idx[o].next)
    ensures s != 0 ==> Unlink(f, lists, s, p).heads[0] == f.heads[0]
  {
    var g := Unlink(f, lists, s, p);
    var lists' := lists[s := Remove(lists[s], p)];
    PredLocOk(f, lists, s, p);
    SetPtrFrame(f, PredLoc(lists, s, p), Succ(lists[s], p));
    assert g == SetPtr(f, PredLoc(lists, s, p), Succ(lists[s], p));
    assert s != 0 ==> 0 * PTR_SZ != PredLoc(lists, s, p);
    forall t | 0 <= t < NSLOTS
      ensures Linked(g.idx, g.heads[t], lists'[t])
    {
      UnlinkLinked(f, lists, s, p, t);
    }
    UnlinkDisjoint(lists, s, p);
    var l := lists[s];
    assert Linked(f.idx, f.heads[s], l);
    forall t | 1 <= t < NSLOTS
      ensures KeysUnique(g.idx, lists'[t])
    {
      assert KeysUnique(f.idx, lists[t]);
      if t == s {
        KeysRemove(f.idx, g.idx, l, p);
      } else {
        assert Linked(f.idx, f.heads[t], lists[t]);
      }
    }
    if s == 0 {
      BlankRemove(f.idx, g.idx, l, p);
    }
  }

  lemma {:induction false} PushLinked(f: Files, lists: seq<seq<nat>>, s: nat, off: nat, r: Record, t: nat)
    requires ListsOk(f, lists) && s < NSLOTS && t < NSLOTS
    requires REC_START <= off <= PTR_MAX && forall u :: 0 <= u < NSLOTS ==> off !in lists[u]
    ensures var g := Push(f, s, off, r); var lists' := lists[s := [off] + lists[s]];
      Linked(g.idx, g.heads[t], lists'[t])
  {
    var g := Push(f, s, off, r);
    assert Linked(f.idx, f.heads[t], lists[t]);
    if t != s {
      forall i | 0 <= i < |lists[t]|
        ensures lists[t][i] != off
      {
        assert lists[t][i] in lists[t];
      }
    } else {
      var l := lists[s];
      var n := [off] + l;
      forall i | 0 <= i < |n|
        ensures n[i] in g.idx && REC_START <= n[i] <= PTR_MAX && g.idx[n[i]].next == Succ(n, i)
      {
        if i > 0 {
          assert n[i] == l[i - 1];
          assert l[i - 1] in l;
        }
      }
    }
  }

  lemma PushDisjoint(lists: seq<seq<nat>>, s: nat, off: nat)
    requires Disjoint(lists) && s < |lists|
    requires forall u :: 0 <= u < |lists| ==> off !in lists[u]
    ensures Disjoint(lists[s := [off] + lists[s]])
  {
    var l := lists[s];
    var n := [off] + l;
    var lists' := lists[s := n];
    assert NoDup(l);
    NoDupPairs(l);
    forall i, j | 0 <= i < j < |n|
      ensures n[i] != n[j]
    {
      assert n[j] == l[j - 1] && n[j] in l;
      if i > 0 {
        assert n[i] == l[i - 1];
      }
    }
    forall s1, s2, x | 0 <= s1 < |lists'| && 0 <= s2 < |lists'| && s1 != s2 && x in lists'[s1]
      ensures x !in lists'[s2]
    {
      if s1 == s {
        if x != off {
          assert x in l;
        }
      } else if s2 == s {
        assert x != off;
        assert x !in l;
      }
    }
  }

  lemma PushKeys(idx: map<nat, Record>, idx': map<nat, Record>, l: seq<nat>, off: nat, key: seq<char>)
    requires KeysUnique(idx, l) && off !in l
    requires forall i :: 0 <= i < |l| ==> l[i] in idx && l[i] in idx' && idx'[l[i]] == idx[l[i]] && idx[l[i]].key != key
    requires off in idx' && idx'[off].key == key
    ensures KeysUnique(idx', [off] + l)
  {
    var n := [off] + l;
    forall i, j | 0 <= i < j < |n| && n[i] in idx' && n[j] in idx'
      ensures idx'[n[i]].key != idx'[n[j]].key
    {
      assert n[j] == l[j - 1];
      if i > 0 {
        assert n[i] == l[i - 1];
      }
    }
  }

  lemma PushBlank(idx: map<nat, Record>, idx': map<nat, Record>, l: seq<nat>, off: nat)
    requires FreeBlank(idx, l)
    requires forall i :: 0 <= i < |l| ==> l[i] in idx && l[i] in idx' && idx'[l[i]] == idx[l[i]]
    requires off in idx' && Blank(idx'[off].key)
    ensures FreeBlank(idx', [off] + l)
  {
    var n := [off] + l;
    forall i | 0 <= i < |n| && n[i] in idx'
      ensures Blank(idx'[n[i]].key)
    {
      if i > 0 {
        assert n[i] == l[i - 1];
      }
    }
  }

  /** A push leaves the records of every list where they were. */
  lemma PushFrame(f: Files, lists: seq<seq<nat>>, s: nat, off: nat, r: Record, t: nat)
    requires ListsOk(f, lists) && s < NSLOTS && t < NSLOTS && off !in lists[t]
    ensures forall i :: 0 <= i < |lists[t]| ==>
              lists[t][i] in f.idx && lists[t][i] in Push(f, s, off, r).idx && Push(f, s, off, r).idx[lists[t][i]] == f.idx[lists[t][i]]
  {
    assert Linked(f.idx, f.heads[t], lists[t]);
    forall i | 0 <= i < |lists[t]|
      ensures lists[t][i] != off
    {
      assert lists[t][i] in lists[t];
    }
  }

  /** After a push, each list is still threaded from its slot and keeps its key or blank property. */
  lemma PushSlot(f: Files, lists: seq<seq<nat>>, s: nat, off: nat, r: Record, t: nat)
    requires ListsOk(f, lists) && s < NSLOTS && t < NSLOTS
    requires REC_START <= off <= PTR_MAX && forall u :: 0 <= u < NSLOTS ==> off !in lists[u]
    requires s > 0 ==> forall i :: 0 <= i < |lists[s]| && lists[s][i] in f.idx ==> f.idx[lists[s][i]].key != r.key
    requires s == 0 ==> Blank(r.key)
    ensures var g := Push(f, s, off, r); var lists' := lists[s := [off] + lists[s]];
      && Linked(g.idx, g.heads[t], lists'[t])
      && (t >= 1 ==> KeysUnique(g.idx, lists'[t]))
      && (t == 0 ==> FreeBlank(g.idx, lists'[t]))
  {
    var g := Push(f, s, off, r);
    PushLinked(f, lists, s, off, r, t);
    PushFrame(f, lists, s, off, r, t);
    if t >= 1 {
      assert KeysUnique(f.idx, lists[t]);
      if t == s {
        PushKeys(f.idx, g.idx, lists[s], off, r.key);
      }
    } else {
      assert FreeBlank(f.idx, lists[0]);
      if t == s {
        PushBlank(f.idx, g.idx, lists[0], off);
      }
    }
  }

  /** Pushing a record that is on no list keeps the list invariant. */
  lemma PushOk(f: Files, lists: seq<seq<nat>>, s: nat, off: nat, r: Record)
    requires ListsOk(f, lists) && s < NSLOTS
    requires REC_START <= off <= PTR_MAX && forall u :: 0 <= u < NSLOTS ==> off !in lists[u]
    requires s > 0 ==> forall i :: 0 <= i < |lists[s]| && lists[s][i] in f.idx ==> f.idx[lists[s][i]].key != r.key
    requires s == 0 ==> Blank(r.key)
    ensures ListsOk(Push(f, s, off, r), lists[s := [off] + lists[s]])
  {
    var g := Push(f, s, off, r);
    var lists' := lists[s := [off] + lists[s]];
    forall t | 0 <= t < NSLOTS
      ensures Linked(g.idx, g.heads[t], lists'[t])
      ensures t >= 1 ==> KeysUnique(g.idx, lists'[t])
      ensures t == 0 ==> FreeBlank(g.idx, lists'[t])
    {
      PushSlot(f, lists, s, off, r, t);
    }
    PushDisjoint(lists, s, off);
  }

  // ---------------------------------------------------------------------------
  // Where records lie, kept

  /** g has f's records and data records at the same places with the same lengths. */
  ghost predicate SameShape(f: Files, g: Files)
  {
    && g.idx.Keys == f.idx.Keys && g.dat.Keys == f.dat.Keys
    && g.idxEnd == f.idxEnd && g.datEnd == f.datEnd
    && (forall o :: o in f.idx ==> g.idx[o].datoff == f.idx[o].datoff && g.idx[o].datlen == f.idx[o].datlen && |g.idx[o].key| == |f.idx[o].key|)
    && (forall d :: d in f.dat ==> |g.dat[d]| == |f.dat[d]|)
  }

  lemma SpaceSame(f: Files, g: Files, order: seq<nat>)
    requires SpaceOk(f, order) && SameShape(f, g)
    ensures SpaceOk(g, order)
  {
    forall o | o in f.idx
      ensures RecLen(g.idx[o]) == RecLen(f.idx[o])
      ensures IdxLenOk(g.idx[o].key, g.idx[o].datoff, g.idx[o].datlen)
    {
      assert IdxLenOk(f.idx[o].key, f.idx[o].datoff, f.idx[o].datlen);
    }
  }

  lemma {:induction false} TiledBelow(idx: map<nat, Record>, order: seq<nat>, idxEnd: nat, i: nat)
    requires Tiled(idx, order, idxEnd) && i < |order|
    ensures order[i] < idxEnd
    decreases |order| - i
  {
    if i + 1 < |order| {
      TiledBelow(idx, order, idxEnd, i + 1);
    }
  }

  /** Appending the data record and then the index record at the ends of the files. */
  function AppendDat(f: Files, data: seq<char>): Files
  {
    f.(dat := f.dat[f.datEnd := data], datEnd := f.datEnd + |data| + 1)
  }

  function AppendIdx(f: Files, r: Record): Files
  {
    f.(idx := f.idx[f.idxEnd := r], idxEnd := f.idxEnd + RecLen(r))
  }

  /** The index file ends after its last record, so no record starts at idxEnd. */
  lemma TiledEnd(idx: map<nat, Record>, order: seq<nat>, idxEnd: nat)
    requires Tiled(idx, order, idxEnd)
    ensures forall o :: o in idx ==> o < idxEnd
  {
    forall o | o in idx
      ensures o < idxEnd
    {
      var i :| 0 <= i < |order| && order[i] == o;
      TiledBelow(idx, order, idxEnd, i);
    }
  }

  lemma TiledAppend(idx: map<nat, Record>, order: seq<nat>, idxEnd: nat, r: Record)
    requires Tiled(idx, order, idxEnd) && idxEnd !in idx
    ensures Tiled(idx[idxEnd := r], order + [idxEnd], idxEnd + RecLen(r))
  {
    var idx' := idx[idxEnd := r];
    var order': seq<nat> := order + [idxEnd];
    forall i | 0 <= i < |order'| - 1
      ensures order'[i + 1] == order'[i] + RecLen(idx'[order'[i]])
    {
      assert order'[i] == order[i] && idx'[order[i]] == idx[order[i]];
    }
  }

  lemma DataAppend(idx: map<nat, Record>, dat: map<nat, seq<char>>, datEnd: nat, off: nat, r: Record, data: seq<char>)
    requires DataOk(idx, dat, datEnd) && off !in idx
    requires r.datoff == datEnd && r.datlen == |data| + 1
    ensures DataOk(idx[off := r], dat[datEnd := data], datEnd + |data| + 1)
    ensures datEnd !in dat
  {
  }

  lemma LengthsAppend(idx: map<nat, Record>, off: nat, r: Record)
    requires LengthsOk(idx) && IdxLenOk(r.key, r.datoff, r.datlen)
    ensures LengthsOk(idx[off := r])
  {
  }

  /** Appending a data record and its index record at the ends of the files keeps the space invariant. */
  lemma SpaceAppend(f: Files, order: seq<nat>, r: Record, data: seq<char>)
    requires SpaceOk(f, order)
    requires r.datoff == f.datEnd && r.datlen == |data| + 1 && IdxLenOk(r.key, r.datoff, r.datlen)
    ensures SpaceOk(AppendIdx(AppendDat(f, data), r), order + [f.idxEnd])
    ensures f.idxEnd !in f.idx && f.datEnd !in f.dat
  {
    TiledEnd(f.idx, order, f.idxEnd);
    TiledAppend(f.idx, order, f.idxEnd, r);
    DataAppend(f.idx, f.dat, f.datEnd, f.idxEnd, r, data);
    LengthsAppend(f.idx, f.idxEnd, r);
  }

  // ---------------------------------------------------------------------------
  // The library's operations on the files

  /**
   * _db_dodelete on the record at off whose predecessor pointer is at ptroff,
   * in the order the library writes: the blanked data record, the index
   * record with a blanked key pointing at the old free-list head, the
   * free-list pointer, and the predecessor's pointer.
   */
  function Deleted(f: Files, off: nat, ptroff: nat): Files
    requires |f.heads| == NSLOTS && off in f.idx && f.idx[off].datlen >= 1
    requires PtrLoc(f, ptroff) && ptroff != FREE_OFF && ptroff != off
  {
    var r := f.idx[off];
    var f1 := f.(dat := f.dat[r.datoff := Spaces(r.datlen - 1)]);
    var f2 := f1.(idx := f1.idx[off := Record(f.heads[0], Spaces(|r.key|), r.datoff, r.datlen)]);
    var f3 := SetPtr(f2, FREE_OFF, off);
    SetPtr(f3, ptroff, r.next)
  }

  /** The lists after deleting position p of chain s: off the chain, onto the front of the free list. */
  function DelLists(lists: seq<seq<nat>>, s: nat, p: nat): seq<seq<nat>>
    requires 0 < s < |lists| && p < |lists[s]|
  {
    lists[s := Remove(lists[s], p)][0 := [lists[s][p]] + lists[0]]
  }

  /** The deletion's writes amount to unlinking the record and then pushing it, blanked, on the free list. */
  lemma DeletedIs(f: Files, off: nat, loc: nat)
    requires |f.heads| == NSLOTS && off in f.idx && f.idx[off].datlen >= 1
    requires PtrLoc(f, loc) && loc != FREE_OFF && loc != off
    ensures var r := f.idx[off];
      Deleted(f, off, loc)
      == Push(SetPtr(f, loc, r.next).(dat := f.dat[r.datoff := Spaces(r.datlen - 1)]), 0, off,
              Record(0, Spaces(|r.key|), r.datoff, r.datlen))
  {
    var r := f.idx[off];
    var lhs := Deleted(f, off, loc);
    var rhs := Push(SetPtr(f, loc, r.next).(dat := f.dat[r.datoff := Spaces(r.datlen - 1)]), 0, off, Record(0, Spaces(|r.key|), r.datoff, r.datlen));
    if loc < REC_START {
      assert loc / PTR_SZ != 0;
    }
    assert lhs.heads == rhs.heads;
    assert lhs.idx == rhs.idx;
  }

  lemma DeletedShape(f: Files, off: nat, loc: nat)
    requires |f.heads| == NSLOTS && off in f.idx && f.idx[off].datlen >= 1
    requires PtrLoc(f, loc) && loc != FREE_OFF && loc != off
    requires f.idx[off].datoff in f.dat && |f.dat[f.idx[off].datoff]| + 1 == f.idx[off].datlen
    ensures SameShape(f, Deleted(f, off, loc))
  {
  }

  /** The deleted record heads the free list, with a blanked key, pointing at the old head. */
  lemma DeletedHead(f: Files, off: nat, loc: nat)
    requires |f.heads| == NSLOTS && off in f.idx && f.idx[off].datlen >= 1
    requires PtrLoc(f, loc) && loc != FREE_OFF && loc != off
    ensures var g := Deleted(f, off, loc);
      off in g.idx && Blank(g.idx[off].key) && g.idx[off].next == f.heads[0] && g.heads[0] == off
  {
    var r := f.idx[off];
    assert Blank(Spaces(|r.key|));
    if loc < REC_START {
      assert loc / PTR_SZ != 0;
    }
  }

  /** Only the pointers and index records matter to the lists. */
  lemma ListsOkDat(f: Files, lists: seq<seq<nat>>, dat: map<nat, seq<char>>)
    requires ListsOk(f, lists)
    ensures ListsOk(f.(dat := dat), lists)
  {
    var g := f.(dat := dat);
    assert g.heads == f.heads && g.idx == f.idx;
  }

  /** A record on a chain can be deleted, and its predecessor pointer is a slot or another record. */
  lemma DeletableOk(f: Files, lists: seq<seq<nat>>, order: seq<nat>, s: nat, p: nat)
    requires Good(f, lists, order) && 0 < s < NSLOTS && p < |lists[s]|
    ensures lists[s][p] in f.idx && Deletable(f, lists, s, p)
    ensures f.idx[lists[s][p]].next == Succ(lists[s], p)
    ensures f.idx[lists[s][p]].next <= PTR_MAX && f.heads[0] <= PTR_MAX
  {
    var l := lists[s];
    assert Linked(f.idx, f.heads[s], l);
    assert Linked(f.idx, f.heads[0], lists[0]);
    PredLocOk(f, lists, s, p);
    LinkedNext(f.idx, f.heads[s], l, p);
    if p > 0 {
      assert NoDup(l);
      NoDupPairs(l);
    }
  }

  lemma DeleteLists(f: Files, lists: seq<seq<nat>>, s: nat, p: nat)
    requires ListsOk(f, lists) && 0 < s < NSLOTS && p < |lists[s]|
    requires Deletable(f, lists, s, p) && f.idx[lists[s][p]].next == Succ(lists[s], p)
    ensures ListsOk(Deleted(f, lists[s][p], PredLoc(lists, s, p)), DelLists(lists, s, p))
  {
    var l := lists[s];
    var off := l[p];
    var loc := PredLoc(lists, s, p);
    var r := f.idx[off];
    var blank := Record(0, Spaces(|r.key|), r.datoff, r.datlen);
    DeletedIs(f, off, loc);
    UnlinkOk(f, lists, s, p);
    var g := Unlink(f, lists, s, p);
    assert g == SetPtr(f, loc, r.next);
    var lists1 := lists[s := Remove(l, p)];
    var d := f.dat[r.datoff := Spaces(r.datlen - 1)];
    ListsOkDat(g, lists1, d);
    var g1 := g.(dat := d);
    PushOk(g1, lists1, 0, off, blank);
    assert Deleted(f, off, loc) == Push(g1, 0, off, blank);
    assert DelLists(lists, s, p) == lists1[0 := [off] + lists1[0]];
  }

  /** The deletion changes no other record's key or data offset, and no data record but the deleted one's. */
  lemma DeletedRecords(f: Files, off: nat, loc: nat)
    requires |f.heads| == NSLOTS && off in f.idx && f.idx[off].datlen >= 1
    requires PtrLoc(f, loc) && loc != FREE_OFF && loc != off
    ensures var g := Deleted(f, off, loc);
      && (forall o :: o in f.idx && o != off ==> o in g.idx && g.idx[o].key == f.idx[o].key && g.idx[o].datoff == f.idx[o].datoff)
      && (forall x :: x in f.dat && x != f.idx[off].datoff ==> x in g.dat && g.dat[x] == f.dat[x])
  {
  }

  /**
   * _db_dodelete relinks the lists: the record leaves its chain, whose other
   * records keep their order, and becomes the head of the free list, with
   * its key and data blanked; the invariant is kept.
   */
  lemma DeleteGood(f: Files, lists: seq<seq<nat>>, order: seq<nat>, s: nat, p: nat)
    requires Good(f, lists, order) && 0 < s < NSLOTS && p < |lists[s]|
    ensures var off := lists[s][p];
      && off in f.idx
      && Deletable(f, lists, s, p)
      && Good(Deleted(f, off, PredLoc(lists, s, p)), DelLists(lists, s, p), order)
      && var g := Deleted(f, off, PredLoc(lists, s, p));
         Blank(g.idx[off].key) && g.idx[off].next == f.heads[0] && g.heads[0] == off
  {
    var off := lists[s][p];
    DeletableOk(f, lists, order, s, p);
    DeleteLists(f, lists, s, p);
    DeletedShape(f, off, PredLoc(lists, s, p));
    DeletedHead(f, off, PredLoc(lists, s, p));
    SpaceSame(f, Deleted(f, off, PredLoc(lists, s, p)), order);
  }

  /** The deletion is well defined at position p of chain s. */
  ghost predicate Deletable(f: Files, lists: seq<seq<nat>>, s: nat, p: nat)
    requires 0 < s < |lists| && p < |lists[s]|
  {
    var off := lists[s][p];
    && |f.heads| == NSLOTS && off in f.idx && f.idx[off].datlen >= 1
    && PtrLoc(f, PredLoc(lists, s, p)) && PredLoc(lists, s, p) != FREE_OFF && PredLoc(lists, s, p) != off
  }

  // ---------------------------------------------------------------------------
  // Facts the library's walks rely on

  /** Every record on a list is an index record within the pointer range, and so is every non-zero head. */
  lemma OnList(f: Files, lists: seq<seq<nat>>, t: nat)
    requires ListsOk(f, lists) && t < NSLOTS
    ensures forall i :: 0 <= i < |lists[t]| ==> lists[t][i] in f.idx && REC_START <= lists[t][i] <= PTR_MAX
    ensures f.heads[t] <= PTR_MAX && (f.heads[t] != 0 <==> |lists[t]| > 0)
  {
    assert Linked(f.idx, f.heads[t], lists[t]);
  }

  /** A slot offset is a pointer field holding the slot's head. */
  lemma SlotPtr(f: Files, s: nat)
    requires |f.heads| == NSLOTS && s < NSLOTS
    ensures SlotOff(s) < REC_START && PtrLoc(f, SlotOff(s)) && PtrAt(f, SlotOff(s)) == f.heads[s]
    ensures SetPtr(f, SlotOff(s), 0) == f.(heads := f.heads[s := 0])
    ensures forall v :: SetPtr(f, SlotOff(s), v) == f.(heads := f.heads[s := v])
  {
    assert SlotOff(s) / PTR_SZ == s;
  }

  /** The lists are kept when only records on no list change. */
  lemma ListsOkFrame(f: Files, lists: seq<seq<nat>>, g: Files, off: nat)
    requires ListsOk(f, lists) && g.heads == f.heads
    requires forall o :: o in f.idx && o != off ==> o in g.idx && g.idx[o] == f.idx[o]
    requires forall t :: 0 <= t < NSLOTS ==> off !in lists[t]
    ensures ListsOk(g, lists)
  {
    forall t | 0 <= t < NSLOTS
      ensures Linked(g.idx, g.heads[t], lists[t])
      ensures forall i :: 0 <= i < |lists[t]| ==> lists[t][i] in g.idx && g.idx[lists[t][i]] == f.idx[lists[t][i]]
    {
      assert Linked(f.idx, f.heads[t], lists[t]);
      forall i | 0 <= i < |lists[t]|
        ensures lists[t][i] != off
      {
        assert lists[t][i] in lists[t];
      }
    }
    forall t | 1 <= t < NSLOTS
      ensures KeysUnique(g.idx, lists[t])
    {
      assert KeysUnique(f.idx, lists[t]);
    }
    assert FreeBlank(f.idx, lists[0]);
  }

  /** Two keys of the same length give index records of the same length. */
  lemma IdxLenSameLength(k1: seq<char>, k2: seq<char>, datoff: nat, datlen: nat)
    requires |k1| == |k2|
    ensures |IdxBody(k1, datoff, datlen)| == |IdxBody(k2, datoff, datlen)|
    ensures IdxLenOk(k1, datoff, datlen) == IdxLenOk(k2, datoff, datlen)
  {
  }

  /** Where db_nextrec reads next: the record at position pos in file order, or the end of the index file. */
  function CursorAt(order: seq<nat>, pos: nat, idxEnd: nat): nat
  {
    if pos < |order| then order[pos] else idxEnd
  }

  /** Reading a record moves the reader to the next one; the first record is at REC_START. */
  lemma TiledNext(idx: map<nat, Record>, order: seq<nat>, idxEnd: nat, i: nat)
    requires Tiled(idx, order, idxEnd) && i < |order|
    ensures order[i] in idx && order[i] < idxEnd
    ensures order[i] + RecLen(idx[order[i]]) == CursorAt(order, i + 1, idxEnd)
  {
    TiledBelow(idx, order, idxEnd, i);
  }

  /** The index file ends at or after REC_START, and a rewound reader is at the first record. */
  lemma TiledStart(idx: map<nat, Record>, order: seq<nat>, idxEnd: nat)
    requires Tiled(idx, order, idxEnd)
    ensures REC_START <= idxEnd && CursorAt(order, 0, idxEnd) == REC_START
    ensures forall o :: o in idx ==> REC_START <= o < idxEnd
  {
    if |order| > 0 {
      TiledBelow(idx, order, idxEnd, 0);
    }
    TiledEnd(idx, order, idxEnd);
    forall o | o in idx
      ensures REC_START <= o
    {
      var i :| 0 <= i < |order| && order[i] == o;
      TiledFrom(idx, order, idxEnd, i);
    }
  }

  lemma {:induction false} TiledFrom(idx: map<nat, Record>, order: seq<nat>, idxEnd: nat, i: nat)
    requires Tiled(idx, order, idxEnd) && i < |order|
    ensures REC_START <= order[i]
  {
    if i > 0 {
      TiledFrom(idx, order, idxEnd, i - 1);
    }
  }
}
