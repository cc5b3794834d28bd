/**
 * Singly linked lists threaded through a table: the C code keeps a list as a
 * head pointer plus one `next` field per table entry (the hole table's
 * `h_next`, a process's `p_nextready` and `p_q_link`).
 * Here the `next` fields of a table are a sequence of optional slot numbers,
 * and a list is described by the sequence of slots met when following the
 * links from the head.  Several lists may share one `next` sequence as long
 * as they have no slot in common.
 */
module Links {
  import opened KConst
  import opened Seqs

  /** The first slot of a list, or nothing for the empty list. */
  function First(l: seq<nat>): Option<nat>
  {
    if |l| == 0 then None else Some(l[0])
  }

  /** The last slot of a list, or nothing for the empty list. */
  function Last(l: seq<nat>): Option<nat>
  {
    if |l| == 0 then None else Some(l[|l| - 1])
  }

  /** The slot that follows position i of a list, or nothing at the end. */
  function After(l: seq<nat>, i: nat): Option<nat>
  {
    if i + 1 < |l| then Some(l[i + 1]) else None
  }

  /**
   * Following the links from `head` visits the slots of `l`, in order, and
   * stops after the last one.
   */
  ghost predicate Chain(next: seq<Option<nat>>, head: Option<nat>, l: seq<nat>)
  {
    && (forall i :: 0 <= i < |l| ==> l[i] < |next|)
    && head == First(l)
    && (forall i {:trigger next[l[i]]} :: 0 <= i < |l| ==> next[l[i]] == After(l, i))
  }

  /** A chain that visits each slot once: a well-formed list. */
  ghost predicate IsList(next: seq<Option<nat>>, head: Option<nat>, l: seq<nat>)
  {
    Chain(next, head, l) && NoDup(l)
  }

  /** The links and the head determine the list. */
  lemma {:induction false} ListUnique(next: seq<Option<nat>>, head: Option<nat>, l1: seq<nat>, l2: seq<nat>)
    requires IsList(next, head, l1) && IsList(next, head, l2)
    ensures l1 == l2
    decreases |l1|
  {
    if |l1| > 0 && |l2| > 0 {
      ListTail(next, head, l1);
      ListTail(next, head, l2);
      ListUnique(next, next[l1[0]], l1[1..], l2[1..]);
    }
  }

  /** Without its first slot, a list is the list that starts at that slot's successor. */
  lemma ListTail(next: seq<Option<nat>>, head: Option<nat>, l: seq<nat>)
    requires IsList(next, head, l) && |l| > 0
    ensures IsList(next, next[l[0]], l[1..])
  {
    var t := l[1..];
    assert forall i :: 0 <= i < |t| ==> t[i] == l[i + 1];
    NoDupPairs(l);
    PairsNoDup(t);
  }

  /** Changing the link of a slot that is not on a list leaves the list as it is. */
  lemma ListFrame(next: seq<Option<nat>>, head: Option<nat>, l: seq<nat>, x: nat, v: Option<nat>)
    requires IsList(next, head, l) && x < |next| && x !in l
    ensures IsList(next[x := v], head, l)
  {
  }

  /** Linking a slot in front of the head makes it the new first slot. */
  lemma ListPush(next: seq<Option<nat>>, head: Option<nat>, l: seq<nat>, x: nat)
    requires IsList(next, head, l) && x < |next| && x !in l
    ensures IsList(next[x := head], Some(x), [x] + l)
  {
    var l' := [x] + l;
    assert forall i :: 1 <= i < |l'| ==> l'[i] == l[i - 1];
    NoDupPairs(l);
    PairsNoDup(l');
  }

  /** Linking a slot after the last one (or as the only slot of an empty list) appends it. */
  lemma ListAppend(next: seq<Option<nat>>, head: Option<nat>, l: seq<nat>, x: nat)
    requires IsList(next, head, l) && x < |next| && x !in l
    ensures |l| == 0 ==> IsList(next[x := None], Some(x), [x])
    ensures |l| > 0 ==> IsList(next[x := None][l[|l| - 1] := Some(x)], head, l + [x])
  {
    var l' := l + [x];
    assert forall i :: 0 <= i < |l| ==> l'[i] == l[i];
    NoDupPairs(l);
    PairsNoDup(l');
    PairsNoDup([x]);
  }

  /** Replacing the head by its successor takes the first slot off the list. */
  lemma ListPop(next: seq<Option<nat>>, head: Option<nat>, l: seq<nat>)
    requires IsList(next, head, l) && |l| > 0
    ensures IsList(next, next[l[0]], Remove(l, 0))
  {
    ListTail(next, head, l);
    assert Remove(l, 0) == l[1..];
  }

  /** Linking the predecessor of position p to p's successor takes p off the list. */
  lemma ListUnlink(next: seq<Option<nat>>, head: Option<nat>, l: seq<nat>, p: nat)
    requires IsList(next, head, l) && 0 < p < |l|
    ensures IsList(next[l[p - 1] := next[l[p]]], head, Remove(l, p))
  {
    RemoveNoDup(l, p);
    NoDupPairs(l);
  }

  /** Linking x between position p and its successor inserts x after position p. */
  lemma ListInsertAfter(next: seq<Option<nat>>, head: Option<nat>, l: seq<nat>, p: nat, x: nat)
    requires IsList(next, head, l) && p < |l| && x < |next| && x !in l
    ensures IsList(next[x := next[l[p]]][l[p] := Some(x)], head, l[..p + 1] + [x] + l[p + 1..])
  {
    var l' := l[..p + 1] + [x] + l[p + 1..];
    InsertedShape(l, p, x);
    var nx := next[x := next[l[p]]][l[p] := Some(x)];
    forall i | 0 <= i < |l'|
      ensures nx[l'[i]] == After(l', i)
    {
      if i < p {
        assert nx[l'[i]] == next[l[i]];
      } else if i >= p + 2 {
        assert nx[l'[i]] == next[l[i - 1]];
      }
    }
  }

  /** The positions of a list with x inserted after position p. */
  lemma InsertedShape(l: seq<nat>, p: nat, x: nat)
    requires NoDup(l) && p < |l| && x !in l
    ensures var l' := l[..p + 1] + [x] + l[p + 1..];
      && |l'| == |l| + 1 && l'[p + 1] == x && NoDup(l')
      && (forall i :: 0 <= i <= p ==> l'[i] == l[i] && l[i] != x && (i < p ==> l[i] != l[p]))
      && (forall i :: p + 2 <= i < |l'| ==> l'[i] == l[i - 1] && l[i - 1] != x && l[i - 1] != l[p])
  {
    var l' := l[..p + 1] + [x] + l[p + 1..];
    NoDupPairs(l);
    assert forall i :: 0 <= i <= p ==> l'[i] == l[i];
    assert forall i :: p + 2 <= i < |l'| ==> l'[i] == l[i - 1];
    forall i, j | 0 <= i < j < |l'|
      ensures l'[i] != l'[j]
    {
      if j == p + 1 {
        assert l[i] in l;
      } else if i == p + 1 {
        assert l[j - 1] in l;
      }
    }
    PairsNoDup(l');
  }

  /** Two lists in one table with no slot in common. */
  predicate Disjoint(l1: seq<nat>, l2: seq<nat>)
  {
    forall i, j :: 0 <= i < |l1| && 0 <= j < |l2| ==> l1[i] != l2[j]
  }

  /** A list of distinct slots of a table of n slots has at most n elements. */
  lemma {:induction false} ListBound(l: seq<nat>, n: nat)
    requires NoDup(l) && forall i :: 0 <= i < |l| ==> l[i] < n
    ensures |l| <= n
    decreases |l|
  {
    if |l| > 0 {
      NoDupPairs(l);
      var x := l[|l| - 1];
      var l' := l[..|l| - 1];
      var m := seq(|l'|, i requires 0 <= i < |l'| => if l'[i] == n - 1 then x else l'[i]);
      forall i, j | 0 <= i < j < |m|
        ensures m[i] != m[j]
      {
        assert l'[i] != l'[j] && l'[i] != x && l'[j] != x;
      }
      forall i | 0 <= i < |m|
        ensures m[i] < n - 1
      {
        assert l'[i] != x;
        if l'[i] == n - 1 {
          assert x != n - 1;
        }
      }
      PairsNoDup(m);
      ListBound(m, n - 1);
    }
  }
}
