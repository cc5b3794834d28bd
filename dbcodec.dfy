/*
 * The text formats of the APUE database library's index file: chain
 * pointers are right-justified decimal numbers in a fixed 7-character
 * field, and an index record is a 7-character chain pointer, a
 * 4-character record length and the text `key:datoff:datlen\n`.  Numbers
 * are written with sprintf("%*d") and read back with atol.  The key hash
 * is also here.  Constants from apue_db.h (which is not part of this
 * model) are those of the third edition of the book.
 */
module DbCodec {
  import opened KConst

  const IDXLEN_SZ: nat := 4
  const SEP: char := ':'
  const SPACE: char := ' '
  const NEWLINE: char := '\n'
  const PTR_SZ: nat := 7
  /** The largest pointer value accepted (the comment beside it in db.c says 10**PTR_SZ - 1). */
  const PTR_MAX: nat := 999999
  const NHASH_DEF: nat := 137
  const FREE_OFF: nat := 0
  const HASH_OFF: nat := PTR_SZ

  const IDXLEN_MIN: nat := 6
  const IDXLEN_MAX: nat := 1024
  const DATLEN_MIN: nat := 2
  const DATLEN_MAX: nat := 1024

  // ---------------------------------------------------------------------------
  // Decimal numbers as sprintf writes them and atol reads them

  predicate IsDigit(c: char) { '0' <= c <= '9' }

  function DigitChar(d: nat): (c: char)
    requires d < 10
    ensures IsDigit(c)
  {
    '0' + d as char
  }

  function DigitValue(c: char): (d: nat)
    requires IsDigit(c)
    ensures d < 10
  {
    (c - '0') as nat
  }

  /** The decimal representation of n without leading zeros ("%d"). */
  function Digits(n: nat): (s: seq<char>)
    ensures 1 <= |s|
    ensures forall k :: 0 <= k < |s| ==> IsDigit(s[k])
  {
    if n < 10 then [DigitChar(n)] else Digits(n / 10) + [DigitChar(n % 10)]
  }

  /** The value of a string of decimal digits. */
  function Value(s: seq<char>): nat
    requires forall k :: 0 <= k < |s| ==> IsDigit(s[k])
  {
    if |s| == 0 then 0 else 10 * Value(s[..|s| - 1]) + DigitValue(s[|s| - 1])
  }

  /** Reading a number back gives the number written. */
  lemma {:induction false} ValueOfDigits(n: nat)
    ensures Value(Digits(n)) == n
  {
    if n >= 10 {
      var s := Digits(n);
      assert s[..|s| - 1] == Digits(n / 10);
      ValueOfDigits(n / 10);
    }
  }

  /** Up to six digits for numbers below a million. */
  lemma {:induction false} DigitsLength(n: nat, w: nat)
    requires n < Pow10(w) && w >= 1
    ensures |Digits(n)| <= w
  {
    if n >= 10 {
      DigitsLength(n / 10, w - 1);
    }
  }

  function Pow10(w: nat): (p: nat)
    ensures p >= 1
  {
    if w == 0 then 1 else 10 * Pow10(w - 1)
  }

  function Spaces(k: nat): (s: seq<char>)
    ensures |s| == k && forall i :: 0 <= i < k ==> s[i] == SPACE
  {
    seq(k, _ => SPACE)
  }

  /** sprintf("%*s", w, s): right-justified in a field of width w, never truncated. */
  function PadLeft(s: seq<char>, w: nat): (r: seq<char>)
    ensures |r| == if |s| >= w then |s| else w
  {
    if |s| >= w then s else Spaces(w - |s|) + s
  }

  /** The white space atol skips before a number (isspace). */
  predicate IsSpace(c: char)
  {
    c == ' ' || c == '\t' || c == '\n' || c == '\U{B}' || c == '\U{C}' || c == '\r'
  }

  function SkipSpace(s: seq<char>, i: nat): (j: nat)
    requires i <= |s|
    ensures i <= j <= |s|
    decreases |s| - i
  {
    if i < |s| && IsSpace(s[i]) then SkipSpace(s, i + 1) else i
  }

  function DigitRun(s: seq<char>, i: nat): (j: nat)
    requires i <= |s|
    ensures i <= j <= |s|
    ensures forall k :: i <= k < j ==> IsDigit(s[k])
    decreases |s| - i
  {
    if i < |s| && IsDigit(s[i]) then DigitRun(s, i + 1) else i
  }

  /**
   * atol: skip white space, take an optional sign, then the longest run of
   * digits; no digits reads as 0.  Overflow is not modelled (see README).
   */
  function Atol(s: seq<char>): (r: int)
    ensures r < 0 ==> '-' in s
    ensures r != 0 ==> exists k :: 0 <= k < |s| && IsDigit(s[k])
  {
    var i := SkipSpace(s, 0);
    var neg := i < |s| && s[i] == '-';
    var d := if i < |s| && (s[i] == '-' || s[i] == '+') then i + 1 else i;
    var j := DigitRun(s, d);
    var v: int := Value(s[d..j]);
    assert v != 0 ==> d < j && IsDigit(s[d]);
    assert neg ==> s[i] in s;
    if neg then -v else v
  }

  /** A number right-justified by sprintf reads back as itself with atol. */
  lemma AtolPadded(n: nat, w: nat)
    ensures Atol(PadLeft(Digits(n), w)) == n
  {
    var s := PadLeft(Digits(n), w);
    var pad := |s| - |Digits(n)|;
    assert s == Spaces(pad) + Digits(n);
    SkipSpaceOver(s, pad);
    DigitRunAll(s, pad);
    assert s[pad..|s|] == Digits(n);
    ValueOfDigits(n);
  }

  lemma {:induction false} SkipSpaceOver(s: seq<char>, pad: nat)
    requires pad < |s| && IsDigit(s[pad])
    requires forall k :: 0 <= k < pad ==> s[k] == SPACE
    ensures SkipSpace(s, 0) == pad
  {
    SkipSpaceFrom(s, 0, pad);
  }

  lemma {:induction false} SkipSpaceFrom(s: seq<char>, i: nat, pad: nat)
    requires i <= pad < |s| && IsDigit(s[pad])
    requires forall k :: i <= k < pad ==> s[k] == SPACE
    ensures SkipSpace(s, i) == pad
    decreases pad - i
  {
    if i < pad {
      SkipSpaceFrom(s, i + 1, pad);
    }
  }

  lemma {:induction false} DigitRunAll(s: seq<char>, i: nat)
    requires i <= |s|
    requires forall k :: i <= k < |s| ==> IsDigit(s[k])
    ensures DigitRun(s, i) == |s|
    decreases |s| - i
  {
    if i < |s| {
      DigitRunAll(s, i + 1);
    }
  }

  // ---------------------------------------------------------------------------
  // Chain pointers

  /** _db_writeptr's field text, or None where it calls err_quit. */
  function WritePtr(ptrval: int): (r: Option<seq<char>>)
    ensures r.Some? <==> 0 <= ptrval <= PTR_MAX
    ensures r.Some? ==> |r.value| == PTR_SZ && '-' !in r.value
  {
    if ptrval < 0 || ptrval > PTR_MAX then None
    else
      DigitsLength(ptrval, 7);
      Some(PadLeft(Digits(ptrval), PTR_SZ))
  }

  /** _db_readptr: atol of the 7-character field; a field without a minus sign never reads negative. */
  function ReadPtr(field: seq<char>): (r: int)
    ensures '-' !in field ==> r >= 0
  {
    Atol(field)
  }

  /**
   * _db_writeptr accepts exactly the values 0..PTR_MAX, always fills the
   * 7-character field, and _db_readptr gives the value back.
   */
  lemma PtrRoundTrip(ptrval: int)
    ensures WritePtr(ptrval).Some? <==> 0 <= ptrval <= PTR_MAX
    ensures WritePtr(ptrval).Some? ==>
      |WritePtr(ptrval).value| == PTR_SZ && ReadPtr(WritePtr(ptrval).value) == ptrval
  {
    if 0 <= ptrval <= PTR_MAX {
      DigitsLength(ptrval, 7);
      AtolPadded(ptrval, PTR_SZ);
    }
  }

  // ---------------------------------------------------------------------------
  // Index records

  datatype IdxRec = IdxRec(ptrval: int, key: seq<char>, datoff: int, datlen: int)

  /** The record text after the two fixed fields: key:datoff:datlen and a newline. */
  function IdxBody(key: seq<char>, datoff: nat, datlen: nat): seq<char>
  {
    key + [SEP] + Digits(datoff) + [SEP] + Digits(datlen) + [NEWLINE]
  }

  /**
   * _db_writeidx: the pointer field, the length field and the body, or None
   * where it calls err_quit (bad pointer) or err_dump (length out of range).
   */
  function WriteIdx(key: seq<char>, datoff: nat, datlen: nat, ptrval: int): (r: Option<seq<char>>)
    ensures r.Some? <==> 0 <= ptrval <= PTR_MAX && IDXLEN_MIN <= |IdxBody(key, datoff, datlen)| <= IDXLEN_MAX
    ensures r.Some? ==> |r.value| == PTR_SZ + IDXLEN_SZ + |IdxBody(key, datoff, datlen)|
    ensures r.Some? ==> r.value[PTR_SZ + IDXLEN_SZ..] == IdxBody(key, datoff, datlen)
  {
    var body := IdxBody(key, datoff, datlen);
    if ptrval < 0 || ptrval > PTR_MAX then None
    else if |body| < IDXLEN_MIN || |body| > IDXLEN_MAX then None
    else
      DigitsLength(ptrval, 7);
      DigitsLength(|body|, 4);
      Some(PadLeft(Digits(ptrval), PTR_SZ) + PadLeft(Digits(|body|), IDXLEN_SZ) + body)
  }

  /** The index of the first occurrence of c in s, or |s|. */
  function Find(s: seq<char>, c: char): (i: nat)
    ensures i <= |s|
    ensures i < |s| ==> s[i] == c
    ensures forall k :: 0 <= k < i ==> s[k] != c
  {
    if |s| == 0 then 0 else if s[0] == c then 0 else 1 + Find(s[1..], c)
  }

  /** The C string at the start of s: everything before the first NUL. */
  function CStr(s: seq<char>): seq<char>
  {
    s[..Find(s, NUL)]
  }

  /** The separators and numbers of a record body, once its newline has gone. */
  function ParseBody(str: seq<char>, ptrval: int): (r: Option<IdxRec>)
  {
    var p1 := Find(str, SEP);
    if p1 == |str| then None
    else
      var rest := str[p1 + 1..];
      var p2 := Find(rest, SEP);
      if p2 == |rest| then None
      else
        var lens := rest[p2 + 1..];
        if Find(lens, SEP) < |lens| then None
        else
          var datoff := Atol(rest[..p2]);
          var datlen := Atol(lens);
          if datoff < 0 then None
          else if datlen <= 0 || datlen > DATLEN_MAX then None
          else Some(IdxRec(ptrval, str[..p1], datoff, datlen))
  }

  /**
   * _db_readidx on the file text from the record's offset: the fixed
   * fields, the length check, the newline check and the separator and
   * number checks.  None stands for each err_dump.
   */
  function ReadIdx(s: seq<char>): (r: Option<(IdxRec, nat)>)
    ensures r.Some? ==> IDXLEN_MIN <= r.value.1 <= IDXLEN_MAX && PTR_SZ + IDXLEN_SZ + r.value.1 <= |s|
  {
    if |s| < PTR_SZ + IDXLEN_SZ then None
    else
      var ptrval := Atol(s[..PTR_SZ]);
      var idxlen := Atol(s[PTR_SZ..PTR_SZ + IDXLEN_SZ]);
      if idxlen < IDXLEN_MIN || idxlen > IDXLEN_MAX then None
      else if |s| < PTR_SZ + IDXLEN_SZ + idxlen then None
      else
        var body := s[PTR_SZ + IDXLEN_SZ..PTR_SZ + IDXLEN_SZ + idxlen];
        if body[idxlen - 1] != NEWLINE then None
        else match ParseBody(CStr(body[..idxlen - 1]), ptrval)
          case None => None
          case Some(rec) => Some((rec, idxlen))
  }

  /** A key that can be stored: no separator and no NUL. */
  predicate GoodKey(key: seq<char>)
  {
    SEP !in key && NUL !in key
  }

  lemma BodyParses(key: seq<char>, datoff: nat, datlen: nat, ptrval: int)
    requires GoodKey(key) && 0 < datlen <= DATLEN_MAX
    ensures var b := IdxBody(key, datoff, datlen);
      ParseBody(CStr(b[..|b| - 1]), ptrval) == Some(IdxRec(ptrval, key, datoff, datlen))
  {
    var b := IdxBody(key, datoff, datlen);
    var str := b[..|b| - 1];
    var d1 := Digits(datoff);
    var d2 := Digits(datlen);
    assert str == key + [SEP] + d1 + [SEP] + d2;
    NoNul(str, key, d1, d2);
    assert CStr(str) == str;
    DigitsHaveNoSep(datoff);
    DigitsHaveNoSep(datlen);
    assert str == key + ([SEP] + (d1 + ([SEP] + d2)));
    SplitAt(key, d1 + ([SEP] + d2));
    SplitAt(d1, d2);
    FindNone(d2, SEP);
    AtolPadded(datoff, 0);
    AtolPadded(datlen, 0);
  }

  /** A field without ':' followed by ':' and the rest splits at that separator back into the field and the rest. */
  lemma SplitAt(a: seq<char>, b: seq<char>)
    requires SEP !in a
    ensures var s := a + ([SEP] + b); Find(s, SEP) == |a| && s[..|a|] == a && s[|a| + 1..] == b
  {
    FindAbsent(a, SEP, [SEP] + b);
    assert (a + ([SEP] + b))[..|a|] == a;
    assert (a + ([SEP] + b))[|a| + 1..] == b;
  }

  lemma DigitsHaveNoSep(n: nat)
    ensures SEP !in Digits(n) && NUL !in Digits(n)
  {
    var d := Digits(n);
    assert forall k :: 0 <= k < |d| ==> d[k] != SEP && d[k] != NUL;
  }

  lemma {:induction false} FindNone(s: seq<char>, c: char)
    requires c !in s
    ensures Find(s, c) == |s|
  {
    if |s| > 0 {
      assert s[1..] + [] == s[1..];
      FindNone(s[1..], c);
    }
  }

  lemma NoNul(str: seq<char>, key: seq<char>, d1: seq<char>, d2: seq<char>)
    requires NUL !in key
    requires forall k :: 0 <= k < |d1| ==> IsDigit(d1[k])
    requires forall k :: 0 <= k < |d2| ==> IsDigit(d2[k])
    requires str == key + [SEP] + d1 + [SEP] + d2
    ensures Find(str, NUL) == |str|
  {
    forall k | 0 <= k < |str|
      ensures str[k] != NUL
    {
      if k < |key| {
        assert str[k] == key[k];
      } else if k == |key| {
      } else if k < |key| + 1 + |d1| {
        assert str[k] == d1[k - |key| - 1];
      } else if k == |key| + 1 + |d1| {
      } else {
        assert str[k] == d2[k - |key| - 2 - |d1|];
      }
    }
  }

  lemma {:induction false} FindAbsent(a: seq<char>, c: char, b: seq<char>)
    requires c !in a && |b| > 0 && b[0] == c
    ensures Find(a + b, c) == |a|
  {
    if |a| > 0 {
      assert (a + b)[1..] == a[1..] + b;
      FindAbsent(a[1..], c, b);
    } else {
      assert a + b == b;
    }
  }

  /**
   * _db_readidx reads back what _db_writeidx wrote, for a key without a
   * separator or NUL and a data length _db_readidx accepts, whatever
   * follows the record in the file; it consumes exactly the record.
   */
  lemma IdxRoundTrip(key: seq<char>, datoff: nat, datlen: nat, ptrval: int, after: seq<char>)
    requires GoodKey(key) && 0 < datlen <= DATLEN_MAX
    requires WriteIdx(key, datoff, datlen, ptrval).Some?
    ensures var rec := WriteIdx(key, datoff, datlen, ptrval).value;
      ReadIdx(rec + after) == Some((IdxRec(ptrval, key, datoff, datlen), |IdxBody(key, datoff, datlen)|))
  {
    var body := IdxBody(key, datoff, datlen);
    var f1 := PadLeft(Digits(ptrval), PTR_SZ);
    var f2 := PadLeft(Digits(|body|), IDXLEN_SZ);
    DigitsLength(ptrval, 7);
    DigitsLength(|body|, 4);
    var s := f1 + f2 + body + after;
    assert WriteIdx(key, datoff, datlen, ptrval).value + after == s;
    assert s[..PTR_SZ] == f1;
    assert s[PTR_SZ..PTR_SZ + IDXLEN_SZ] == f2;
    AtolPadded(ptrval, PTR_SZ);
    AtolPadded(|body|, IDXLEN_SZ);
    assert s[PTR_SZ + IDXLEN_SZ..PTR_SZ + IDXLEN_SZ + |body|] == body;
    BodyParses(key, datoff, datlen, ptrval);
  }

  /** _db_writeidx fails exactly for a bad pointer or a body length out of range. */
  lemma WriteIdxFails(key: seq<char>, datoff: nat, datlen: nat, ptrval: int)
    ensures WriteIdx(key, datoff, datlen, ptrval).None? <==>
      ptrval < 0 || ptrval > PTR_MAX ||
      |key| + |Digits(datoff)| + |Digits(datlen)| + 3 < IDXLEN_MIN ||
      |key| + |Digits(datoff)| + |Digits(datlen)| + 3 > IDXLEN_MAX
  {
  }

  // ---------------------------------------------------------------------------
  // The hash function

  /** Σ c_i · i over the key's characters, i counted from 1. */
  function HashSum(key: seq<char>): nat
  {
    if |key| == 0 then 0 else HashSum(key[..|key| - 1]) + (key[|key| - 1] as nat) * |key|
  }

  /**
   * _db_hash: the loop accumulating each character times its 1-based
   * position, reduced modulo the table size.
   */
  method Hash(key: seq<char>, nhash: nat) returns (h: nat)
    requires nhash > 0 && NUL !in key
    ensures h == HashSum(key) % nhash
    ensures h < nhash
  {
    var hval: nat := 0;
    var i := 1;
    while i <= |key|
      invariant 1 <= i <= |key| + 1
      invariant hval == HashSum(key[..i - 1])
    {
      assert key[..i][..i - 1] == key[..i - 1];
      hval := hval + (key[i - 1] as nat) * i;
      i := i + 1;
    }
    assert key[..|key|] == key;
    h := hval % nhash;
  }

  /**
   * For a key of 7-bit characters the sum is at most 127 · n(n+1)/2, so
   * the signed char of the C loop never contributes a negative term.
   */
  lemma {:induction false} HashSumBound(key: seq<char>)
    requires forall i :: 0 <= i < |key| ==> key[i] as nat < 128
    ensures HashSum(key) * 2 <= 127 * |key| * (|key| + 1)
  {
    if |key| > 0 {
      var n := |key|;
      HashSumBound(key[..n - 1]);
      assert (key[n - 1] as nat) * n <= 127 * n;
      assert 127 * (n - 1) * n + 2 * 127 * n == 127 * n * (n + 1);
    }
  }

  /**
   * A key of at most 8000 7-bit characters hashes without reaching 2^32,
   * so the unsigned long accumulator of the C loop does not wrap even
   * where it is 32 bits wide.
   */
  lemma HashSumFitsLong(key: seq<char>)
    requires forall i :: 0 <= i < |key| ==> key[i] as nat < 128
    requires |key| <= 8000
    ensures HashSum(key) < 0x1_0000_0000
  {
    HashSumBound(key);
    var n := |key|;
    var m := n * (n + 1);
    assert m <= 8000 * (n + 1);
    assert 8000 * (n + 1) <= 64008000;
    assert 127 * n * (n + 1) == 127 * m;
  }

  /** The chain pointer for hash value h: after the free-list pointer at offset 0. */
  function ChainOff(h: nat): nat
  {
    h * PTR_SZ + HASH_OFF
  }

  /**
   * Chain pointers sit in consecutive 7-character fields after the
   * free-list pointer, distinct for distinct hash values, all before the
   * newline that ends the hash table.
   */
  lemma ChainOffLayout(h1: nat, h2: nat, nhash: nat)
    requires h1 < nhash && h2 < nhash
    ensures ChainOff(h1) != FREE_OFF && ChainOff(h1) % PTR_SZ == 0
    ensures ChainOff(h1) + PTR_SZ <= (nhash + 1) * PTR_SZ
    ensures ChainOff(h1) == ChainOff(h2) <==> h1 == h2
  {
  }

  // ---------------------------------------------------------------------------
  // A fresh index file

  function Repeat(s: seq<char>, n: nat): (r: seq<char>)
    ensures |r| == n * |s|
  {
    if n == 0 then [] else Repeat(s, n - 1) + s
  }

  /** db_open's initial index file: NHASH_DEF + 1 zero pointers and a newline. */
  function InitialIndex(): seq<char>
  {
    Repeat(PadLeft(Digits(0), PTR_SZ), NHASH_DEF + 1) + [NEWLINE]
  }

  lemma {:induction false} RepeatField(s: seq<char>, n: nat, i: nat)
    requires |s| == PTR_SZ && i < n
    ensures Repeat(s, n)[i * PTR_SZ..(i + 1) * PTR_SZ] == s
  {
    var r := Repeat(s, n);
    assert r == Repeat(s, n - 1) + s;
    if i < n - 1 {
      RepeatField(s, n - 1, i);
      assert r[i * PTR_SZ..(i + 1) * PTR_SZ] == Repeat(s, n - 1)[i * PTR_SZ..(i + 1) * PTR_SZ];
    } else {
      assert r[(n - 1) * PTR_SZ..] == s;
    }
  }

  /**
   * The fresh index file holds the free-list pointer and NHASH_DEF chain
   * pointers, each reading as 0 (empty lists), and then a newline; the
   * records db_rewind skips to begin right after it.
   */
  lemma InitialLayout(i: nat)
    requires i <= NHASH_DEF
    ensures |InitialIndex()| == (NHASH_DEF + 1) * PTR_SZ + 1
    ensures ReadPtr(InitialIndex()[i * PTR_SZ..(i + 1) * PTR_SZ]) == 0
    ensures InitialIndex()[(NHASH_DEF + 1) * PTR_SZ] == NEWLINE
  {
    var field := PadLeft(Digits(0), PTR_SZ);
    var all := Repeat(field, NHASH_DEF + 1);
    assert |field| == PTR_SZ;
    RepeatField(field, NHASH_DEF + 1, i);
    assert InitialIndex()[i * PTR_SZ..(i + 1) * PTR_SZ] == all[i * PTR_SZ..(i + 1) * PTR_SZ] by {
      assert (i + 1) * PTR_SZ <= |all|;
    }
    AtolPadded(0, PTR_SZ);
  }
}
