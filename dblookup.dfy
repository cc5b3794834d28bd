/*
 * What a reader of the database sees: the key/data association that
 * db_fetch answers from, and how each relinking of the files changes it.
 *
 * A hash chain is read as the sequence of (key, data) pairs of its
 * records, in chain order; a lookup takes the data of the first pair with
 * the key, as _db_find_and_lock stops at the first match.
 */
module DbLookup {
  import opened KConst
  import opened DbCodec
  import opened DbFile
  import opened Seqs

  /** The key of the index record at x (empty where there is none). */
  function KeyOf(f: Files, x: nat): seq<char>
  {
    if x in f.idx then f.idx[x].key else []
  }

  /** The data of the index record at x, without its newline (empty where there is none). */
  function DataOf(f: Files, x: nat): seq<char>
  {
    if x in f.idx && f.idx[x].datoff in f.dat then f.dat[f.idx[x].datoff] else []
  }

  /** The (key, data) pairs of the records on l, in list order. */
  function View(f: Files, l: seq<nat>): seq<(seq<char>, seq<char>)>
  {
    seq(|l|, i requires 0 <= i < |l| => (KeyOf(f, l[i]), DataOf(f, l[i])))
  }

  /** The data of the first pair with the key. */
  function FindIn(v: seq<(seq<char>, seq<char>)>, key: seq<char>): Option<seq<char>>
  {
    if |v| == 0 then None
    else if v[0].0 == key then Some(v[0].1)
    else FindIn(v[1..], key)
  }

  /** db_fetch's answer: the data of the first record on the key's hash chain with that key. */
  function Lookup(f: Files, lists: seq<seq<nat>>, key: seq<char>): Option<seq<char>>
  {
    if SlotOf(key) < |lists| then FindIn(View(f, lists[SlotOf(key)]), key) else None
  }

  // ---------------------------------------------------------------------------
  // The chain walk

  /** The position of the first record on l with the given key, or |l|. */
  function KeyPos(f: Files, l: seq<nat>, key: seq<char>): (p: nat)
    ensures p <= |l|
    ensures p < |l| ==> KeyOf(f, l[p]) == key
    ensures forall i :: 0 <= i < p ==> KeyOf(f, l[i]) != key
  {
    if |l| == 0 then 0
    else if KeyOf(f, l[0]) == key then 0
    else 1 + KeyPos(f, l[1..], key)
  }

  /** A position with the key and none before it is the first position with the key. */
  lemma {:induction false} KeyPosIs(f: Files, l: seq<nat>, key: seq<char>, p: nat)
    requires p <= |l| && (p < |l| ==> KeyOf(f, l[p]) == key)
    requires forall i :: 0 <= i < p ==> KeyOf(f, l[i]) != key
    ensures KeyPos(f, l, key) == p
  {
    if p > 0 {
      KeyPosIs(f, l[1..], key, p - 1);
    }
  }

  /** The chain walk's stopping position gives the lookup's answer. */
  lemma {:induction false} FindInKeyPos(f: Files, l: seq<nat>, key: seq<char>)
    ensures var p := KeyPos(f, l, key);
      FindIn(View(f, l), key) == if p < |l| then Some(DataOf(f, l[p])) else None
  {
    if |l| > 0 && KeyOf(f, l[0]) != key {
      FindInKeyPos(f, l[1..], key);
      assert View(f, l)[1..] == View(f, l[1..]);
    }
  }

  // ---------------------------------------------------------------------------
  // Finding in changed views

  lemma {:induction false} FindInRemoveOther(v: seq<(seq<char>, seq<char>)>, p: nat, key: seq<char>)
    requires p < |v| && v[p].0 != key
    ensures FindIn(Remove(v, p), key) == FindIn(v, key)
  {
    if p > 0 && v[0].0 != key {
      assert Remove(v, p)[1..] == Remove(v[1..], p - 1);
      FindInRemoveOther(v[1..], p - 1, key);
    } else if p == 0 {
      assert Remove(v, 0) == v[1..];
    }
  }

  lemma {:induction false} FindInAbsent(v: seq<(seq<char>, seq<char>)>, key: seq<char>)
    requires forall i :: 0 <= i < |v| ==> v[i].0 != key
    ensures FindIn(v, key).None?
  {
    if |v| > 0 {
      FindInAbsent(v[1..], key);
    }
  }

  lemma {:induction false} FindInRemoveOnly(v: seq<(seq<char>, seq<char>)>, p: nat, key: seq<char>)
    requires p < |v| && forall i :: 0 <= i < |v| && i != p ==> v[i].0 != key
    ensures FindIn(Remove(v, p), key).None?
  {
    var r := Remove(v, p);
    if |r| > 0 {
      assert r[0].0 != key;
      if p == 0 {
        FindInAbsent(r, key);
      } else {
        assert r[1..] == Remove(v[1..], p - 1);
        FindInRemoveOnly(v[1..], p - 1, key);
      }
    }
  }

  /** Two views with the same keys that agree on the data of every pair with the key find the same. */
  lemma {:induction false} FindInAgree(v: seq<(seq<char>, seq<char>)>, w: seq<(seq<char>, seq<char>)>, key: seq<char>)
    requires |v| == |w|
    requires forall i :: 0 <= i < |v| ==> v[i].0 == w[i].0 && (v[i].0 == key ==> v[i].1 == w[i].1)
    ensures FindIn(w, key) == FindIn(v, key)
  {
    if |v| > 0 && v[0].0 != key {
      FindInAgree(v[1..], w[1..], key);
    }
  }

  // ---------------------------------------------------------------------------
  // Lookups across changes of the files

  /** g shows the same key and data as f for every record on l. */
  ghost predicate AgreeAll(f: Files, g: Files, l: seq<nat>)
  {
    forall i :: 0 <= i < |l| ==> KeyOf(g, l[i]) == KeyOf(f, l[i]) && DataOf(g, l[i]) == DataOf(f, l[i])
  }

  /** g shows f's keys on l, and f's data for the records with the key. */
  ghost predicate AgreeFor(f: Files, g: Files, l: seq<nat>, key: seq<char>)
  {
    forall i :: 0 <= i < |l| ==> KeyOf(g, l[i]) == KeyOf(f, l[i]) && (KeyOf(f, l[i]) == key ==> DataOf(g, l[i]) == DataOf(f, l[i]))
  }

  /** Records that keep their key, data offset and data show the same pair. */
  lemma AgreeAllFrame(f: Files, g: Files, l: seq<nat>)
    requires forall i :: 0 <= i < |l| ==>
               && l[i] in f.idx && l[i] in g.idx
               && g.idx[l[i]].key == f.idx[l[i]].key && g.idx[l[i]].datoff == f.idx[l[i]].datoff
               && f.idx[l[i]].datoff in f.dat && f.idx[l[i]].datoff in g.dat
               && g.dat[f.idx[l[i]].datoff] == f.dat[f.idx[l[i]].datoff]
    ensures AgreeAll(f, g, l)
  {
  }

  /** A lookup reads only its own chain, and there only the keys and the data of the matching records. */
  lemma LookupSame(f: Files, lists: seq<seq<nat>>, g: Files, lists': seq<seq<nat>>, key: seq<char>)
    requires SlotOf(key) < |lists| && SlotOf(key) < |lists'|
    requires lists'[SlotOf(key)] == lists[SlotOf(key)] && AgreeFor(f, g, lists[SlotOf(key)], key)
    ensures Lookup(g, lists', key) == Lookup(f, lists, key)
  {
    var l := lists[SlotOf(key)];
    FindInAgree(View(f, l), View(g, l), key);
  }

  /** Chains that are unchanged and show the same pairs give the same lookups, for every key. */
  lemma LookupAll(f: Files, lists: seq<seq<nat>>, g: Files, lists': seq<seq<nat>>)
    requires |lists| == NSLOTS && |lists'| == NSLOTS
    requires forall t :: 1 <= t < NSLOTS ==> lists'[t] == lists[t] && AgreeAll(f, g, lists[t])
    ensures forall key :: Lookup(g, lists', key) == Lookup(f, lists, key)
  {
    forall key
      ensures Lookup(g, lists', key) == Lookup(f, lists, key)
    {
      LookupSame(f, lists, g, lists', key);
    }
  }

  /**
   * A record put at the front of its key's chain is what a lookup of its
   * key finds; every other key finds what it found before.
   */
  lemma LookupPushed(f: Files, lists: seq<seq<nat>>, g: Files, lists': seq<seq<nat>>, off: nat, key: seq<char>)
    requires |lists| == NSLOTS && |lists'| == NSLOTS
    requires lists'[SlotOf(key)] == [off] + lists[SlotOf(key)] && AgreeAll(f, g, lists[SlotOf(key)])
    requires forall t :: 1 <= t < NSLOTS && t != SlotOf(key) ==> lists'[t] == lists[t] && AgreeAll(f, g, lists[t])
    requires KeyOf(g, off) == key
    ensures Lookup(g, lists', key) == Some(DataOf(g, off))
    ensures forall k :: k != key ==> Lookup(g, lists', k) == Lookup(f, lists, k)
  {
    var s := SlotOf(key);
    var l := lists[s];
    assert View(g, [off] + l)[1..] == View(g, l);
    forall k | k != key
      ensures Lookup(g, lists', k) == Lookup(f, lists, k)
    {
      if SlotOf(k) == s {
        FindInAgree(View(f, l), View(g, l), k);
      } else {
        LookupSame(f, lists, g, lists', k);
      }
    }
  }

  /**
   * A record taken off its chain is no longer found, provided no other
   * record of the chain has its key; every other key finds what it found
   * before, provided the remaining records show the same pairs.
   */
  lemma LookupRemoved(f: Files, lists: seq<seq<nat>>, g: Files, lists': seq<seq<nat>>, s: nat, p: nat)
    requires |lists| == NSLOTS && |lists'| == NSLOTS && 1 <= s < NSLOTS && p < |lists[s]|
    requires lists'[s] == Remove(lists[s], p) && AgreeAll(f, g, lists'[s])
    requires forall t :: 1 <= t < NSLOTS && t != s ==> lists'[t] == lists[t] && AgreeAll(f, g, lists[t])
    requires forall i :: 0 <= i < |lists[s]| && i != p ==> KeyOf(f, lists[s][i]) != KeyOf(f, lists[s][p])
    requires SlotOf(KeyOf(f, lists[s][p])) == s
    ensures Lookup(g, lists', KeyOf(f, lists[s][p])).None?
    ensures forall k :: k != KeyOf(f, lists[s][p]) ==> Lookup(g, lists', k) == Lookup(f, lists, k)
  {
    var l := lists[s];
    var key := KeyOf(f, l[p]);
    var v := View(f, l);
    assert View(f, Remove(l, p)) == Remove(v, p);
    FindInAgree(View(f, Remove(l, p)), View(g, Remove(l, p)), key);
    FindInRemoveOnly(v, p, key);
    forall k | k != key
      ensures Lookup(g, lists', k) == Lookup(f, lists, k)
    {
      if SlotOf(k) == s {
        FindInAgree(View(f, Remove(l, p)), View(g, Remove(l, p)), k);
        FindInRemoveOther(v, p, k);
      } else {
        LookupSame(f, lists, g, lists', k);
      }
    }
  }
}
