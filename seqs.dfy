/**
 * Small facts about sequences used as lists of table slots: taking an
 * element out, and lists without repeated elements.
 */
module Seqs {
  /** l without its element at position p. */
  function Remove<T>(l: seq<T>, p: nat): (r: seq<T>)
    requires p < |l|
    ensures |r| == |l| - 1
    ensures forall i :: 0 <= i < p ==> r[i] == l[i]
    ensures forall i :: p <= i < |r| ==> r[i] == l[i + 1]
  {
    l[..p] + l[p + 1..]
  }

  /** Positions i < j of l hold different elements. */
  predicate Differ(l: seq<nat>, i: int, j: int)
  {
    0 <= i < j < |l| ==> l[i] != l[j]
  }

  /**
   * No element of l occurs twice.  The quantifier is triggered by Differ
   * alone, so two positions are compared only where a proof names them
   * (NoDupPairs names them all).
   */
  ghost predicate NoDup(l: seq<nat>)
  {
    forall i, j {:trigger Differ(l, i, j)} :: Differ(l, i, j)
  }

  lemma NoDupPairs(l: seq<nat>)
    requires NoDup(l)
    ensures forall i, j :: 0 <= i < j < |l| ==> l[i] != l[j]
  {
    forall i, j | 0 <= i < j < |l|
      ensures l[i] != l[j]
    {
      assert Differ(l, i, j);
    }
  }

  lemma PairsNoDup(l: seq<nat>)
    requires forall i, j :: 0 <= i < j < |l| ==> l[i] != l[j]
    ensures NoDup(l)
  {
    forall i, j
      ensures Differ(l, i, j)
    {
      if 0 <= i < j < |l| {
        assert l[i] != l[j];
      }
    }
  }

  lemma RemoveIn(l: seq<nat>, p: nat, x: nat)
    requires p < |l| && NoDup(l)
    ensures x in Remove(l, p) <==> x in l && x != l[p]
  {
    NoDupPairs(l);
    var r := Remove(l, p);
    if x in r {
      var i :| 0 <= i < |r| && r[i] == x;
      if i < p {
        assert l[i] == x;
      } else {
        assert l[i + 1] == x;
      }
    }
    if x in l && x != l[p] {
      var j :| 0 <= j < |l| && l[j] == x;
      if j < p {
        assert r[j] == x;
      } else {
        assert r[j - 1] == x;
      }
    }
  }

  lemma RemoveNoDup(l: seq<nat>, p: nat)
    requires p < |l| && NoDup(l)
    ensures NoDup(Remove(l, p))
  {
    NoDupPairs(l);
    var r := Remove(l, p);
    forall i, j | 0 <= i < j < |r|
      ensures r[i] != r[j]
    {
      var i' := if i < p then i else i + 1;
      var j' := if j < p then j else j + 1;
      assert r[i] == l[i'] && r[j] == l[j'] && i' < j';
    }
    PairsNoDup(r);
  }

  lemma HeadNotInTail(l: seq<nat>)
    requires |l| > 0 && NoDup(l)
    ensures l[0] !in l[1..]
  {
    forall i | 1 <= i < |l|
      ensures l[i] != l[0]
    {
      assert Differ(l, 0, i);
    }
  }

  /** Overwriting the element that is then taken out makes no difference. */
  lemma RemoveUpdate<T>(l: seq<T>, p: nat, x: T)
    requires p < |l|
    ensures Remove(l[p := x], p) == Remove(l, p)
  {
    assert l[p := x][..p] == l[..p] && l[p := x][p + 1..] == l[p + 1..];
  }

  /** A second update of the same position replaces the first. */
  lemma UpdateTwice<T>(l: seq<T>, p: nat, a: T, b: T)
    requires p < |l|
    ensures l[p := a][p := b] == l[p := b]
  {
  }
}
