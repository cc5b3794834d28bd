/*
 * The database handle of the APUE database library (db.c) and the calls a
 * client makes on it: db_open, db_fetch, db_store, db_delete, db_rewind and
 * db_nextrec, with the chain walks and the writes they are built from.
 *
 * The handle keeps the contents of the two files as a Files value, which
 * each write replaces; the lists threaded through the files and the index
 * records in file order are ghost state that the invariant Valid ties to
 * the files.  Every public call keeps Valid and is specified by what a
 * reader sees afterwards: Lookup on the new files.
 */
module DbStore {
  import opened KConst
  import opened DbCodec
  import opened DbFile
  import opened Seqs
  import opened DbLookup
  import opened DbEffects

  /** The flags db_store accepts. */
  const DB_INSERT: int := 1
  const DB_REPLACE: int := 2
  const DB_STORE: int := 3

  /** The errno values db_store sets (the host's numbering). */
  const ERRNO_ENOENT: int := 2
  const ERRNO_EINVAL: int := 22

  /** What a call does to the calling process: it returns a code, or err_dump/err_quit end it. */
  datatype Outcome = Returned(rc: int) | Exited

  /** The position in file order of the first record at or after i whose key is not blank, or |order|. */
  function NextNonBlank(f: Files, order: seq<nat>, i: nat): (j: nat)
    requires i <= |order|
    ensures i <= j <= |order|
    ensures forall k :: i <= k < j ==> Blank(KeyOf(f, order[k]))
    ensures j < |order| ==> !Blank(KeyOf(f, order[j]))
    decreases |order| - i
  {
    if i == |order| then i
    else if !Blank(KeyOf(f, order[i])) then i
    else NextNonBlank(f, order, i + 1)
  }

  // ---------------------------------------------------------------------------
  // The writes, on the contents of the files

  /** _db_writeptr: the pointer field at loc set to v, or None where a bad value ends the process (err_quit). */
  function PutPtr(f: Files, loc: nat, v: nat): (r: Option<Files>)
    requires PtrLoc(f, loc)
    ensures r.Some? <==> WritePtr(v).Some?
    ensures r.Some? ==> PtrLoc(r.value, loc) && PtrAt(r.value, loc) == v
  {
    PtrRoundTrip(v);
    SetPtrRead(f, loc, v, loc);
    if v <= PTR_MAX then Some(SetPtr(f, loc, v)) else None
  }

  /** _db_writedat: the data record at the end of the data file (at == None) or over the one at at. */
  function PutDat(f: Files, data: seq<char>, at: Option<nat>): (g: Files)
    ensures at.Some? ==> at.value in g.dat && g.dat[at.value] == data && g.datEnd == f.datEnd
    ensures at.None? ==> f.datEnd in g.dat && g.dat[f.datEnd] == data && g.datEnd == f.datEnd + |data| + 1
    ensures g.dat.Keys == f.dat.Keys + {if at.Some? then at.value else f.datEnd}
    ensures forall o :: o in f.dat && o != (if at.Some? then at.value else f.datEnd) ==> g.dat[o] == f.dat[o]
    ensures g.idx == f.idx && g.heads == f.heads && g.idxEnd == f.idxEnd
  {
    if at.None? then AppendDat(f, data) else f.(dat := f.dat[at.value := data])
  }

  /**
   * _db_writeidx: the index record at the end of the index file
   * (at == None) or over the one at at; None where a bad pointer or a body
   * of a length outside IDXLEN_MIN..IDXLEN_MAX ends the process.
   */
  function PutIdx(f: Files, key: seq<char>, at: Option<nat>, ptrval: nat, datoff: nat, datlen: nat): (r: Option<Files>)
    requires at.Some? ==> at.value in f.idx && RecLen(f.idx[at.value]) == RecLen(Record(ptrval, key, datoff, datlen))
    ensures r.Some? <==> WriteIdx(key, datoff, datlen, ptrval).Some?
    ensures r.Some? && at.None? ==> f.idxEnd in r.value.idx && r.value.idx[f.idxEnd] == Record(ptrval, key, datoff, datlen)
    ensures r.Some? && at.Some? ==> at.value in r.value.idx && r.value.idx[at.value] == Record(ptrval, key, datoff, datlen)
    ensures r.Some? ==> r.value.idx.Keys == f.idx.Keys + {if at.Some? then at.value else f.idxEnd}
    ensures r.Some? ==> forall o :: o in f.idx && o != (if at.Some? then at.value else f.idxEnd) ==> r.value.idx[o] == f.idx[o]
    ensures r.Some? ==> r.value.idxEnd == (if at.Some? then f.idxEnd else f.idxEnd + RecLen(Record(ptrval, key, datoff, datlen)))
    ensures r.Some? ==> r.value.dat == f.dat && r.value.heads == f.heads && r.value.datEnd == f.datEnd
  {
    var rec := Record(ptrval, key, datoff, datlen);
    if !(ptrval <= PTR_MAX && IdxLenOk(key, datoff, datlen)) then None
    else if at.None? then Some(AppendIdx(f, rec))
    else Some(f.(idx := f.idx[at.value := rec]))
  }

  // ---------------------------------------------------------------------------
  // The steps db_store and db_delete are built from, on the contents of the files

  /**
   * _db_find_and_lock: from the key's slot, follow the chain until a
   * record with the key; report the record, the pointer field that
   * points at it and the slot offset.
   */
  method FindAndLock(f: Files, ghost lists: seq<seq<nat>>, key: seq<char>) returns (found: bool, off: nat, ptroff: nat, chainoff: nat, ghost p: nat)
    requires ListsOk(f, lists) && NUL !in key
    ensures chainoff == SlotOff(SlotOf(key))
    ensures p == KeyPos(f, lists[SlotOf(key)], key)
    ensures found <==> p < |lists[SlotOf(key)]|
    ensures found ==> off == lists[SlotOf(key)][p] && ptroff == PredLoc(lists, SlotOf(key), p)
    ensures found ==> off in f.idx && f.idx[off].key == key
  {
    var h := Hash(key, NHASH_DEF);
    chainoff := ChainOff(h);
    SlotOffIsChainOff(key);
    ghost var s := SlotOf(key);
    ghost var l := lists[s];
    OnList(f, lists, s);
    SlotPtr(f, s);
    assert Linked(f.idx, f.heads[s], l);
    ptroff := chainoff;
    var offset := PtrAt(f, ptroff);
    p := 0;
    while offset != 0
      invariant p <= |l| && offset == (if p < |l| then l[p] else 0)
      invariant p < |l| ==> ptroff == PredLoc(lists, s, p)
      invariant forall i :: 0 <= i < p ==> KeyOf(f, l[i]) != key
      decreases |l| - p
    {
      LinkedNext(f.idx, f.heads[s], l, p);
      var r := f.idx[offset];
      if r.key == key {
        break;
      }
      ptroff := offset;
      offset := r.next;
      p := p + 1;
    }
    found := offset != 0;
    off := offset;
    KeyPosIs(f, l, key, p);
  }

  /**
   * _db_dodelete on the record at position p of chain s, whose
   * predecessor pointer is at ptroff: blank its data and key, make it the
   * head of the free list, and point the predecessor at its successor.
   */
  method DoDelete(f: Files, off: nat, ptroff: nat, ghost lists: seq<seq<nat>>, ghost s: nat, ghost p: nat) returns (g: Files)
    requires 1 <= s < |lists| && p < |lists[s]| && off == lists[s][p] && ptroff == PredLoc(lists, s, p)
    requires Deletable(f, lists, s, p) && Rewritable(f, off)
    ensures g == Deleted(f, off, ptroff)
  {
    var r := f.idx[off];
    g := PutDat(f, Spaces(r.datlen - 1), Some(r.datoff));
    var freeptr := PtrAt(g, FREE_OFF);
    var saveptr := r.next;
    g := PutIdx(g, Spaces(|r.key|), Some(off), freeptr, r.datoff, r.datlen).value;
    g := PutPtr(g, FREE_OFF, off).value;
    g := PutPtr(g, ptroff, saveptr).value;
  }

  /**
   * _db_findfree's walk: follow the free list from its head to the first
   * record with the key length and data length; report it (0 at the end
   * of the list) and the pointer field that points at it.
   */
  method FreeWalk(f: Files, ghost l: seq<nat>, keylen: nat, datlen: nat) returns (offset: nat, saveoffset: nat, ghost q: nat)
    requires |f.heads| == NSLOTS && Linked(f.idx, f.heads[0], l)
    ensures q == FreePos(f, l, keylen, datlen)
    ensures offset == if q < |l| then l[q] else 0
    ensures q < |l| ==> saveoffset == if q == 0 then FREE_OFF else l[q - 1]
    ensures var p := FreePos(f, l, keylen, datlen); offset == if p < |l| then l[p] else 0
  {
    saveoffset := FREE_OFF;
    offset := f.heads[0];
    q := 0;
    while offset != 0
      invariant q <= |l| && offset == (if q < |l| then l[q] else 0)
      invariant q < |l| ==> saveoffset == if q == 0 then FREE_OFF else l[q - 1]
      invariant forall i :: 0 <= i < q ==> !(l[i] in f.idx && |f.idx[l[i]].key| == keylen && f.idx[l[i]].datlen == datlen)
      decreases |l| - q
    {
      LinkedNext(f.idx, f.heads[0], l, q);
      var r := f.idx[offset];
      if |r.key| == keylen && r.datlen == datlen {
        break;
      }
      saveoffset := offset;
      offset := r.next;
      q := q + 1;
    }
    FreePosIs(f, l, keylen, datlen, q);
  }

  /**
   * _db_findfree: walk the free list for a record with the key length
   * and data length; if there is one, take it off the list.
   */
  method FindFree(f: Files, ghost lists: seq<seq<nat>>, keylen: nat, datlen: nat)
    returns (found: bool, off: nat, g: Files, ghost q: nat)
    requires ListsOk(f, lists)
    ensures q == FreePos(f, lists[0], keylen, datlen)
    ensures found <==> q < |lists[0]|
    ensures found ==> off == lists[0][q] && g == Unlink(f, lists, 0, q)
    ensures !found ==> g == f
  {
    assert Linked(f.idx, f.heads[0], lists[0]);
    var saveoffset;
    off, saveoffset, q := FreeWalk(f, lists[0], keylen, datlen);
    found := off != 0;
    if found {
      LinkedNext(f.idx, f.heads[0], lists[0], q);
      PredLocOk(f, lists, 0, q);
      assert saveoffset == PredLoc(lists, 0, q);
      g := PutPtr(f, saveoffset, f.idx[off].next).value;
      assert g == SetPtr(f, PredLoc(lists, 0, q), Succ(lists[0], q));
    } else {
      OnList(f, lists, 0);
      g := f;
    }
  }

  /** A record appended at the end of the index file leaves the reader where it was. */
  lemma CursorGrow(order: seq<nat>, pos: nat, idxEnd: nat, idxEnd': nat)
    requires pos <= |order|
    ensures CursorAt(order + [idxEnd], pos, idxEnd') == CursorAt(order, pos, idxEnd)
  {
  }

  /**
   * db_store's append: the data record and the index record at the ends
   * of the files, the index record pointing at the chain's old head
   * ptrval, then the chain head pointing at the new record.  A write
   * that ends the process leaves what it has already written.
   */
  method Append(f: Files, ghost lists: seq<seq<nat>>, ghost order: seq<nat>, ghost pos: nat,
                key: seq<char>, data: seq<char>, chainoff: nat, ptrval: nat, ghost s: nat)
    returns (out: Outcome, g: Files, ghost lists': seq<seq<nat>>, ghost order': seq<nat>)
    requires Good(f, lists, order) && pos <= |order| && s == SlotOf(key) && chainoff == SlotOff(s) && ptrval == f.heads[s]
    requires forall i :: 0 <= i < |lists[s]| ==> KeyOf(f, lists[s][i]) != key
    ensures Good(g, lists', order')
    ensures order' == (if IdxLenOk(key, f.datEnd, |data| + 1) then order + [f.idxEnd] else order)
    ensures pos <= |order'| && CursorAt(order', pos, g.idxEnd) == CursorAt(order, pos, f.idxEnd)
    ensures out.Exited? <==> !IdxLenOk(key, f.datEnd, |data| + 1) || f.idxEnd > PTR_MAX
    ensures out.Returned? ==> out.rc == 0
    ensures out.Returned? ==> g == Appended(f, s, key, data) && lists' == PushLists(lists, s, f.idxEnd)
    ensures out.Returned? ==> Lookup(g, lists', key) == Some(data)
    ensures out.Exited? ==> Lookup(g, lists', key) == Lookup(f, lists, key)
    ensures forall k :: k != key ==> Lookup(g, lists', k) == Lookup(f, lists, k)
  {
    OnList(f, lists, s);
    TiledStart(f.idx, order, f.idxEnd);
    var datoff := f.datEnd;
    g := PutDat(f, data, None);
    var w := PutIdx(g, key, None, ptrval, datoff, |data| + 1);
    if w.None? {
      AppendDatGood(f, lists, order, data);
      return Exited, g, lists, order;
    }
    var idxoff := g.idxEnd;
    g := w.value;
    assert g == AppendIdx(AppendDat(f, data), NewRecord(f, s, key, data));
    SlotPtr(g, s);
    var w2 := PutPtr(g, chainoff, idxoff);
    if w2.None? {
      AppendIdxGood(f, lists, order, s, key, data);
      CursorGrow(order, pos, f.idxEnd, g.idxEnd);
      return Exited, g, lists, order + [f.idxEnd];
    }
    g := w2.value;
    AppendGood(f, lists, order, s, key, data);
    CursorGrow(order, pos, f.idxEnd, g.idxEnd);
    order' := order + [f.idxEnd];
    lists' := PushLists(lists, s, f.idxEnd);
    out := Returned(0);
  }

  /**
   * db_store's reuse of a free record taken off the free list: the data
   * over its data record, the index record rewritten for key and pointing
   * at the chain's head ptrval, then the chain head pointing at it.
   */
  method Reuse(f: Files, key: seq<char>, data: seq<char>, off: nat, chainoff: nat, ptrval: nat, ghost s: nat)
    returns (g: Files)
    requires |f.heads| == NSLOTS && 1 <= s < NSLOTS && chainoff == SlotOff(s) && ptrval == f.heads[s] && ptrval <= PTR_MAX
    requires off in f.idx && off <= PTR_MAX && |f.idx[off].key| == |key| && f.idx[off].datlen == |data| + 1
    requires IdxLenOk(f.idx[off].key, f.idx[off].datoff, f.idx[off].datlen)
    ensures g == Reused(f, s, off, key, data)
  {
    var r := f.idx[off];
    IdxLenSameLength(r.key, key, r.datoff, r.datlen);
    g := PutDat(f, data, Some(r.datoff));
    g := PutIdx(g, key, Some(off), ptrval, r.datoff, r.datlen).value;
    SlotPtr(g, s);
    g := PutPtr(g, chainoff, off).value;
  }

  // ---------------------------------------------------------------------------
  // The handle and the calls a client makes

  /**
   * What a handle holds between calls: the two files, the index file
   * offset db_nextrec reads from, and the caller's errno.  The offset is
   * None once a fetch, store or delete has moved it to a place the model
   * does not follow; db_rewind and db_nextrec leave it at a record.
   */
  datatype Db = Db(files: Files, cursor: Option<nat>, errno: int)

  /** The free list and the hash chains of the files db_open creates: all empty. */
  function NoLists(): (lists: seq<seq<nat>>)
    ensures |lists| == NSLOTS && forall s :: 0 <= s < NSLOTS ==> lists[s] == []
  {
    seq(NSLOTS, _ => [])
  }

  /**
   * The files keep the library's invariant with the lists threaded
   * through them and the index records in file order, and a reader that
   * is not lost sits at the start of record pos of that order, or at the end.
   */
  ghost predicate Valid(db: Db, lists: seq<seq<nat>>, order: seq<nat>, pos: nat)
  {
    Good(db.files, lists, order) && pos <= |order| && (db.cursor.Some? ==> db.cursor.value == CursorAt(order, pos, db.files.idxEnd))
  }

  /** db_open creating the database: the index file holds the free-list pointer and the hash table, all zero; the reader is rewound. */
  function Create(): (db: Db)
    ensures Valid(db, NoLists(), [], 0)
    ensures db.cursor == Some(REC_START)
    ensures forall k :: Lookup(db.files, NoLists(), k).None?
  {
    InitialGood();
    Db(Initial(), Some(REC_START), 0)
  }

  /** db_open on files an earlier handle left: nothing is read; the reader is rewound. */
  function Reopen(f: Files, ghost lists: seq<seq<nat>>, ghost order: seq<nat>): (db: Db)
    requires Good(f, lists, order)
    ensures Valid(db, lists, order, 0)
    ensures db.files == f && db.cursor == Some(REC_START)
  {
    TiledStart(f.idx, order, f.idxEnd);
    Db(f, Some(REC_START), 0)
  }

  /** db_fetch: the data of the record _db_find_and_lock finds, or nothing; the chain walk moves the reader's offset. */
  method Fetch(db: Db, ghost lists: seq<seq<nat>>, ghost order: seq<nat>, ghost pos: nat, key: seq<char>) returns (r: Option<seq<char>>, db': Db)
    requires Valid(db, lists, order, pos) && NUL !in key
    ensures r == Lookup(db.files, lists, key)
    ensures db' == db.(cursor := None) && Valid(db', lists, order, pos)
  {
    db' := db.(cursor := None);
    var found, off, ptroff, chainoff, p := FindAndLock(db.files, lists, key);
    FindInKeyPos(db.files, lists[SlotOf(key)], key);
    if found {
      r := Some(db.files.dat[db.files.idx[off].datoff]);
    } else {
      r := None;
    }
  }

  /** db_delete: 0 and the key is gone if it was there, else -1 and nothing changes; other keys are untouched. */
  method Delete(db: Db, ghost lists: seq<seq<nat>>, ghost order: seq<nat>, ghost pos: nat, key: seq<char>)
    returns (rc: int, db': Db, ghost lists': seq<seq<nat>>)
    requires Valid(db, lists, order, pos) && NUL !in key
    ensures Valid(db', lists', order, pos)
    ensures db'.cursor == None && db'.errno == db.errno
    ensures rc == (if Lookup(db.files, lists, key).Some? then 0 else -1)
    ensures Lookup(db'.files, lists', key).None?
    ensures forall k :: k != key ==> Lookup(db'.files, lists', k) == Lookup(db.files, lists, k)
    ensures rc == -1 ==> db'.files == db.files && lists' == lists
  {
    var f := db.files;
    var found, off, ptroff, chainoff, p := FindAndLock(f, lists, key);
    ghost var s := SlotOf(key);
    FindInKeyPos(f, lists[s], key);
    if found {
      DeleteLookup(f, lists, order, s, p, key);
      DeleteGood(f, lists, order, s, p);
      DeleteReady(f, lists, order, s, p);
      var g := DoDelete(f, off, ptroff, lists, s, p);
      db', lists' := db.(files := g, cursor := None), DelLists(lists, s, p);
      rc := 0;
    } else {
      db', lists' := db.(cursor := None), lists;
      rc := -1;
    }
  }

  /** _db_writeidx refuses to append key's record: its length is out of bounds, or the index file has grown past PTR_MAX. */
  predicate AppendFails(f: Files, key: seq<char>, data: seq<char>)
  {
    !IdxLenOk(key, f.datEnd, |data| + 1) || f.idxEnd > PTR_MAX
  }

  /** db_store goes on to write: DB_STORE always, DB_INSERT for a new key, DB_REPLACE for a present one. */
  predicate StoreAccepts(flag: int, found: Option<seq<char>>)
  {
    flag == DB_STORE || (flag == DB_INSERT && found.None?) || (flag == DB_REPLACE && found.Some?)
  }

  /**
   * db_store ends the process: it writes for the key, must append a new
   * record (a new key with no free record of its lengths, or a present
   * key whose data changes length) and _db_writeidx refuses that record.
   */
  ghost predicate StoreExits(f: Files, lists: seq<seq<nat>>, key: seq<char>, data: seq<char>, flag: int)
  {
    && 0 < |lists| && SlotOf(key) < |lists|
    && var l := lists[SlotOf(key)];
      var p := KeyPos(f, l, key);
      && StoreAccepts(flag, if p < |l| then Some(data) else None)
      && (if p < |l| then l[p] in f.idx && f.idx[l[p]].datlen != |data| + 1
          else FreePos(f, lists[0], |key|, |data| + 1) == |lists[0]|)
      && AppendFails(f, key, data)
  }

  /**
   * db_store for a key that is not in the database: reuse a free record
   * of the right lengths if there is one, else append.
   */
  method StoreNew(f: Files, ghost lists: seq<seq<nat>>, ghost order: seq<nat>, ghost pos: nat, key: seq<char>, data: seq<char>, chainoff: nat, ghost s: nat)
    returns (out: Outcome, g: Files, ghost lists': seq<seq<nat>>, ghost order': seq<nat>)
    requires Good(f, lists, order) && pos <= |order| && s == SlotOf(key) && chainoff == SlotOff(s)
    requires forall i :: 0 <= i < |lists[s]| ==> KeyOf(f, lists[s][i]) != key
    ensures Good(g, lists', order')
    ensures pos <= |order'| && CursorAt(order', pos, g.idxEnd) == CursorAt(order, pos, f.idxEnd)
    ensures out.Returned? ==> out.rc == 0
    ensures out.Exited? <==> FreePos(f, lists[0], |key|, |data| + 1) == |lists[0]| && AppendFails(f, key, data)
    ensures out.Returned? ==> Lookup(g, lists', key) == Some(data)
    ensures out.Exited? ==> Lookup(g, lists', key) == Lookup(f, lists, key)
    ensures forall k :: k != key ==> Lookup(g, lists', k) == Lookup(f, lists, k)
  {
    SlotPtr(f, s);
    var ptrval := PtrAt(f, chainoff);
    var free, foff, f1, q := FindFree(f, lists, |key|, |data| + 1);
    if !free {
      out, g, lists', order' := Append(f, lists, order, pos, key, data, chainoff, ptrval, s);
    } else {
      ghost var ls1 := lists[0 := Remove(lists[0], q)];
      ReuseReady(f, lists, order, q, key, data, s, f1, foff);
      ReuseStep(f, lists, order, q, key, data, s, f1, ls1, foff);
      g := Reuse(f1, key, data, foff, chainoff, ptrval, s);
      lists', order' := PushLists(ls1, s, foff), order;
      out := Returned(0);
    }
  }

  /**
   * db_store replacing the data of the record at position p of the key's
   * chain: data of another length deletes the record and appends a new
   * one; data of the same length is written over the old.
   */
  method StoreOver(f: Files, ghost lists: seq<seq<nat>>, ghost order: seq<nat>, ghost pos: nat, key: seq<char>, data: seq<char>,
                   off: nat, ptroff: nat, chainoff: nat, ghost s: nat, ghost p: nat)
    returns (out: Outcome, g: Files, ghost lists': seq<seq<nat>>, ghost order': seq<nat>)
    requires Good(f, lists, order) && pos <= |order| && s == SlotOf(key) && chainoff == SlotOff(s)
    requires p == KeyPos(f, lists[s], key) && p < |lists[s]| && off == lists[s][p] && ptroff == PredLoc(lists, s, p)
    ensures Good(g, lists', order')
    ensures pos <= |order'| && CursorAt(order', pos, g.idxEnd) == CursorAt(order, pos, f.idxEnd)
    ensures out.Returned? ==> out.rc == 0
    ensures out.Exited? <==> f.idx[off].datlen != |data| + 1 && AppendFails(f, key, data)
    ensures out.Returned? ==> Lookup(g, lists', key) == Some(data)
    ensures out.Exited? ==> Lookup(g, lists', key).None?
    ensures forall k :: k != key ==> Lookup(g, lists', k) == Lookup(f, lists, k)
  {
    OnList(f, lists, s);
    if |data| + 1 != f.idx[off].datlen {
      DeleteLookup(f, lists, order, s, p, key);
      DeleteClears(f, lists, s, p, key);
      DeleteGood(f, lists, order, s, p);
      DeleteReady(f, lists, order, s, p);
      var f1 := DoDelete(f, off, ptroff, lists, s, p);
      SlotPtr(f1, s);
      var ptrval := PtrAt(f1, chainoff);
      out, g, lists', order' := Append(f1, DelLists(lists, s, p), order, pos, key, data, chainoff, ptrval, s);
    } else {
      OverwriteGood(f, lists, order, s, p, key, data);
      g := PutDat(f, data, Some(f.idx[off].datoff));
      lists', order' := lists, order;
      out := Returned(0);
    }
  }

  /**
   * db_store once the flag and the data length have passed: find the key,
   * then refuse (missing key for DB_REPLACE, present key for DB_INSERT),
   * store a new key, or replace the data of a present one.
   */
  method StoreKey(db: Db, ghost lists: seq<seq<nat>>, ghost order: seq<nat>, ghost pos: nat, key: seq<char>, data: seq<char>, flag: int)
    returns (out: Outcome, db': Db, ghost lists': seq<seq<nat>>, ghost order': seq<nat>)
    requires Valid(db, lists, order, pos) && GoodKey(key)
    requires flag == DB_INSERT || flag == DB_REPLACE || flag == DB_STORE
    ensures Valid(db', lists', order', pos)
    ensures db'.cursor == None
    ensures flag == DB_REPLACE && Lookup(db.files, lists, key).None? ==> out == Returned(-1) && db'.errno == ERRNO_ENOENT
    ensures flag == DB_INSERT && Lookup(db.files, lists, key).Some? ==> out == Returned(1)
    ensures StoreAccepts(flag, Lookup(db.files, lists, key)) ==> out == Returned(0) || out.Exited?
    ensures out.Exited? <==> StoreExits(db.files, lists, key, data, flag)
    ensures out.Returned? && out.rc != 0 ==> db'.files == db.files && lists' == lists && order' == order
    ensures out.Returned? && out.rc != -1 ==> db'.errno == db.errno
    ensures out == Returned(0) ==> Lookup(db'.files, lists', key) == Some(data)
    ensures out.Exited? ==> Lookup(db'.files, lists', key) == Lookup(db.files, lists, key) || Lookup(db'.files, lists', key).None?
    ensures forall k :: k != key ==> Lookup(db'.files, lists', k) == Lookup(db.files, lists, k)
  {
    var f := db.files;
    var found, off, ptroff, chainoff, p := FindAndLock(f, lists, key);
    FindInKeyPos(f, lists[SlotOf(key)], key);
    OnList(f, lists, SlotOf(key));
    var g;
    if !found {
      if flag == DB_REPLACE {
        return Returned(-1), db.(errno := ERRNO_ENOENT, cursor := None), lists, order;
      }
      out, g, lists', order' := StoreNew(f, lists, order, pos, key, data, chainoff, SlotOf(key));
    } else {
      if flag == DB_INSERT {
        return Returned(1), db.(cursor := None), lists, order;
      }
      out, g, lists', order' := StoreOver(f, lists, order, pos, key, data, off, ptroff, chainoff, SlotOf(key), p);
    }
    db' := db.(files := g, cursor := None);
  }

  /**
   * db_store: a flag other than DB_INSERT, DB_REPLACE and DB_STORE is -1
   * with EINVAL; a data length out of bounds ends the process; otherwise
   * the key is stored as StoreKey says.
   */
  method Store(db: Db, ghost lists: seq<seq<nat>>, ghost order: seq<nat>, ghost pos: nat, key: seq<char>, data: seq<char>, flag: int)
    returns (out: Outcome, db': Db, ghost lists': seq<seq<nat>>, ghost order': seq<nat>)
    requires Valid(db, lists, order, pos) && GoodKey(key)
    ensures Valid(db', lists', order', pos)
    ensures flag != DB_INSERT && flag != DB_REPLACE && flag != DB_STORE ==> out == Returned(-1) && db' == db.(errno := ERRNO_EINVAL)
    ensures (flag == DB_INSERT || flag == DB_REPLACE || flag == DB_STORE) && out.Returned? ==> db'.cursor == None
    ensures (flag == DB_INSERT || flag == DB_REPLACE || flag == DB_STORE) && !(DATLEN_MIN <= |data| + 1 <= DATLEN_MAX) ==> out.Exited?
    ensures (flag == DB_INSERT || flag == DB_REPLACE || flag == DB_STORE) && DATLEN_MIN <= |data| + 1 <= DATLEN_MAX ==>
      && (flag == DB_REPLACE && Lookup(db.files, lists, key).None? ==> out == Returned(-1) && db'.errno == ERRNO_ENOENT)
      && (flag == DB_INSERT && Lookup(db.files, lists, key).Some? ==> out == Returned(1))
      && (StoreAccepts(flag, Lookup(db.files, lists, key)) ==> out == Returned(0) || out.Exited?)
      && (out.Exited? <==> StoreExits(db.files, lists, key, data, flag))
    ensures out.Returned? && out.rc != 0 ==> db'.files == db.files && lists' == lists && order' == order
    ensures out.Returned? && out.rc != -1 ==> db'.errno == db.errno
    ensures out == Returned(0) ==> Lookup(db'.files, lists', key) == Some(data)
    ensures out.Exited? ==> Lookup(db'.files, lists', key) == Lookup(db.files, lists, key) || Lookup(db'.files, lists', key).None?
    ensures forall k :: k != key ==> Lookup(db'.files, lists', k) == Lookup(db.files, lists, k)
  {
    if flag != DB_INSERT && flag != DB_REPLACE && flag != DB_STORE {
      return Returned(-1), db.(errno := ERRNO_EINVAL), lists, order;
    }
    var datlen := |data| + 1;
    if datlen < DATLEN_MIN || datlen > DATLEN_MAX {
      return Exited, db, lists, order;
    }
    out, db', lists', order' := StoreKey(db, lists, order, pos, key, data, flag);
  }

  // ---------------------------------------------------------------------------
  // Reading in file order

  /** db_rewind: the reader goes to the first index record, after the hash table and its newline. */
  function Rewind(db: Db): (db': Db)
    ensures db'.cursor == Some((NHASH_DEF + 1) * PTR_SZ + 1) && db'.files == db.files && db'.errno == db.errno
  {
    db.(cursor := Some((NHASH_DEF + 1) * PTR_SZ + 1))
  }

  /** A rewound reader is at the first record in file order. */
  lemma RewindValid(db: Db, lists: seq<seq<nat>>, order: seq<nat>, pos: nat)
    requires Valid(db, lists, order, pos)
    ensures Valid(Rewind(db), lists, order, 0)
  {
    TiledStart(db.files.idx, order, db.files.idxEnd);
  }

  /**
   * db_nextrec: read index records in file order from the reader's
   * position, skipping those with a blank key; give the first other
   * record's key and data, or nothing at the end of the index file.
   */
  method NextRec(db: Db, ghost lists: seq<seq<nat>>, ghost order: seq<nat>, ghost pos: nat)
    returns (r: Option<(seq<char>, seq<char>)>, db': Db, ghost pos': nat)
    requires Valid(db, lists, order, pos) && db.cursor.Some?
    ensures Valid(db', lists, order, pos') && db'.cursor.Some?
    ensures db'.files == db.files && db'.errno == db.errno
    ensures var j := NextNonBlank(db.files, order, pos);
      && (r.Some? <==> j < |order|)
      && (j < |order| ==> r == Some((KeyOf(db.files, order[j]), DataOf(db.files, order[j]))) && pos' == j + 1)
      && (j == |order| ==> pos' == |order| && db'.cursor == Some(db.files.idxEnd))
  {
    var f := db.files;
    var cursor: nat := db.cursor.value;
    pos' := pos;
    while true
      invariant pos' <= |order| && cursor == CursorAt(order, pos', f.idxEnd)
      invariant pos <= pos' && NextNonBlank(f, order, pos) == NextNonBlank(f, order, pos')
      decreases |order| - pos'
    {
      if pos' < |order| {
        TiledNext(f.idx, order, f.idxEnd, pos');
      }
      if cursor == f.idxEnd {
        return None, db.(cursor := Some(cursor)), pos';
      }
      var rec := f.idx[cursor];
      ghost var at := pos';
      cursor := cursor + RecLen(rec);
      pos' := pos' + 1;
      if !Blank(rec.key) {
        return Some((rec.key, f.dat[rec.datoff])), db.(cursor := Some(cursor)), pos';
      }
      assert NextNonBlank(f, order, at) == NextNonBlank(f, order, pos');
    }
  }
}
