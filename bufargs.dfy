/*
 * buf_args: split a NUL-terminated command line held in a buffer into an
 * argv vector, the way the server of the open-server example does before
 * handing the vector to a caller-supplied option function.
 *
 * The buffer is changed in place: strtok writes a NUL over the delimiter
 * that ends each token.  argv[0] is the start of the buffer itself (not the
 * start of the first token), the later entries point at the later tokens,
 * and the vector ends with a null pointer.
 */
module BufArgs {
  import opened KConst

  /** The delimiter set passed to strtok: blank, tab and newline. */
  predicate IsWhite(c: char) { c == ' ' || c == '\t' || c == '\n' }

  /** An argv entry: a pointer into the buffer, or the terminating null. */
  datatype Ptr = Null | At(pos: nat)

  /** What the caller's option function is called with. */
  datatype Args = Args(argc: nat, argv: seq<Ptr>)

  /** The buffer holds a C string of length n: NUL at n and nowhere before. */
  predicate CString(b: seq<char>, n: nat)
  {
    n < |b| && b[n] == NUL && forall k :: 0 <= k < n ==> b[k] != NUL
  }

  /** First position at or after i that is not a delimiter (or the end). */
  function Skip(s: seq<char>, i: nat): (j: nat)
    requires i <= |s|
    ensures i <= j <= |s|
    decreases |s| - i
  {
    if i < |s| && IsWhite(s[i]) then Skip(s, i + 1) else i
  }

  /** Skip passes over delimiters only and stops at a non-delimiter or the end. */
  lemma {:induction false} SkipStops(s: seq<char>, i: nat)
    requires i <= |s|
    ensures forall k :: i <= k < Skip(s, i) ==> IsWhite(s[k])
    ensures Skip(s, i) < |s| ==> !IsWhite(s[Skip(s, i)])
    decreases |s| - i
  {
    if i < |s| && IsWhite(s[i]) {
      SkipStops(s, i + 1);
    }
  }

  /** First position at or after i that is a delimiter (or the end). */
  function End(s: seq<char>, i: nat): (j: nat)
    requires i <= |s|
    ensures i <= j <= |s|
    decreases |s| - i
  {
    if i < |s| && !IsWhite(s[i]) then End(s, i + 1) else i
  }

  /** End passes over non-delimiters only and stops at a delimiter or the end. */
  lemma {:induction false} EndStops(s: seq<char>, i: nat)
    requires i <= |s|
    ensures forall k :: i <= k < End(s, i) ==> !IsWhite(s[k])
    ensures End(s, i) < |s| ==> IsWhite(s[End(s, i)])
    decreases |s| - i
  {
    if i < |s| && !IsWhite(s[i]) {
      EndStops(s, i + 1);
    }
  }

  /** Where strtok resumes after the token that starts at j. */
  function Resume(s: seq<char>, j: nat): (r: nat)
    requires j <= |s|
    ensures j <= r <= |s|
  {
    var k := End(s, j);
    if k < |s| then k + 1 else k
  }

  /** The token starts strtok reports when it is first called at i. */
  function Starts(s: seq<char>, i: nat): (ts: seq<nat>)
    requires i <= |s|
    ensures forall t :: t in ts ==> i <= t < |s|
    decreases |s| - i
  {
    var j := Skip(s, i);
    if j == |s| then [] else [j] + Starts(s, Resume(s, j))
  }

  /** The positions strtok overwrites with NUL: the delimiter after each token. */
  function Cuts(s: seq<char>, i: nat): (cs: set<nat>)
    requires i <= |s|
    ensures forall c :: c in cs ==> i <= c < |s|
    decreases |s| - i
  {
    var j := Skip(s, i);
    if j == |s| then {}
    else
      var k := End(s, j);
      (if k < |s| then {k} else {}) + Cuts(s, Resume(s, j))
  }

  /** The buffer after the delimiters in cs have been overwritten. */
  function Cut(b: seq<char>, cs: set<nat>): (r: seq<char>)
    ensures |r| == |b|
    ensures forall p :: 0 <= p < |b| ==> r[p] == (if p in cs then NUL else b[p])
  {
    seq(|b|, p requires 0 <= p < |b| => if p in cs then NUL else b[p])
  }

  /** The argv entries for token starts ts: the buffer itself, then the later tokens. */
  function Pointers(ts: seq<nat>): (ps: seq<Ptr>)
    requires |ts| > 0
    ensures |ps| == |ts|
    ensures ps[0] == At(0)
    ensures forall k :: 1 <= k < |ts| ==> ps[k] == At(ts[k])
  {
    [At(0)] + seq(|ts| - 1, k requires 0 <= k < |ts| - 1 => At(ts[k + 1]))
  }

  /** The whole argv vector: the pointers followed by the terminating null. */
  function ArgVector(ts: seq<nat>): (argv: seq<Ptr>)
    requires |ts| > 0
    ensures |argv| == |ts| + 1 && argv[|ts|] == Null
  {
    Pointers(ts) + [Null]
  }

  // ---------------------------------------------------------------------------
  // The reference reading of "token": a maximal run of non-delimiters.

  /** p starts a token: it is not a delimiter and its predecessor (if any) is. */
  predicate IsTokenStart(s: seq<char>, p: int)
  {
    0 <= p < |s| && !IsWhite(s[p]) && (p == 0 || IsWhite(s[p - 1]))
  }

  predicate Increasing(ts: seq<nat>)
  {
    forall a, b :: 0 <= a < b < |ts| ==> ts[a] < ts[b]
  }

  /**
   * strtok finds exactly the token starts at or after a position that
   * follows a delimiter (or the start of the string), in increasing order.
   */
  lemma {:induction false} StartsAreTokenStarts(s: seq<char>, i: nat)
    requires i <= |s|
    requires i == 0 || i == |s| || IsWhite(s[i - 1])
    ensures Increasing(Starts(s, i))
    ensures forall p :: p in Starts(s, i) <==> i <= p && IsTokenStart(s, p)
    decreases |s| - i
  {
    var j := Skip(s, i);
    SkipStops(s, i);
    if j < |s| {
      var r := Resume(s, j);
      var k := End(s, j);
      EndStops(s, j);
      assert r == k + 1 || r == |s|;
      StartsAreTokenStarts(s, r);
      assert IsTokenStart(s, j);
      var ts := Starts(s, i);
      assert ts == [j] + Starts(s, r);
      forall a, b | 0 <= a < b < |ts|
        ensures ts[a] < ts[b]
      {
        assert ts[b] in Starts(s, r);
      }
      forall p | i <= p && IsTokenStart(s, p)
        ensures p in Starts(s, i)
      {
        if p != j {
          assert p > k;
          assert p in Starts(s, r);
        }
      }
    }
  }

  /** There is no token at all exactly when strtok's first call returns NULL. */
  lemma NoTokenIffAllWhite(s: seq<char>)
    ensures Starts(s, 0) == [] <==> forall p :: 0 <= p < |s| ==> IsWhite(s[p])
  {
    SkipStops(s, 0);
    if Starts(s, 0) == [] {
      assert Skip(s, 0) == |s|;
    } else {
      assert !IsWhite(s[Skip(s, 0)]);
    }
  }

  /** Every overwritten delimiter directly follows a token and precedes the resume point. */
  lemma {:induction false} CutsFollowTokens(s: seq<char>, i: nat)
    requires i <= |s|
    ensures forall c :: c in Cuts(s, i) ==> i < c < |s| && IsWhite(s[c]) && !IsWhite(s[c - 1]) && Skip(s, i) < c
    ensures forall c :: i < c < |s| && IsWhite(s[c]) && !IsWhite(s[c - 1]) && Skip(s, i) < c ==> c in Cuts(s, i)
    decreases |s| - i
  {
    var j := Skip(s, i);
    SkipStops(s, i);
    if j < |s| {
      var r := Resume(s, j);
      var k := End(s, j);
      EndStops(s, j);
      CutsFollowTokens(s, r);
      forall c | i < c < |s| && IsWhite(s[c]) && !IsWhite(s[c - 1]) && j < c
        ensures c in Cuts(s, i)
      {
        if c != k {
          assert c > k;
          assert c - 1 != k;
          SkipStops(s, r);
          assert Skip(s, r) < c;
        }
      }
    }
  }

  // ---------------------------------------------------------------------------
  // What is read back from argv once the buffer has been cut.

  /** The C string that starts at p in b: everything up to the next NUL. */
  function ReadStr(b: seq<char>, p: nat): (r: seq<char>)
    requires p <= |b|
    ensures NUL !in r
    decreases |b| - p
  {
    if p == |b| || b[p] == NUL then [] else [b[p]] + ReadStr(b, p + 1)
  }

  lemma {:induction false} ReadStrUpTo(b: seq<char>, p: nat, q: nat)
    requires p <= q < |b| && b[q] == NUL
    requires forall k :: p <= k < q ==> b[k] != NUL
    ensures ReadStr(b, p) == b[p..q]
    decreases q - p
  {
    if p < q {
      ReadStrUpTo(b, p + 1, q);
    }
  }

  /** The delimiter that ends a token is cut, unless the token ends the string. */
  lemma TokenEndIsCut(s: seq<char>, j: nat)
    requires j in Starts(s, 0) && End(s, j) < |s|
    ensures End(s, j) in Cuts(s, 0)
  {
    StartsAreTokenStarts(s, 0);
    EndStops(s, j);
    SkipStops(s, 0);
    CutsFollowTokens(s, 0);
    assert IsTokenStart(s, j);
    assert Skip(s, 0) <= j < End(s, j) && !IsWhite(s[End(s, j) - 1]);
  }

  /** Nothing between the reading position and the end of its token is cut. */
  lemma NothingCutBefore(s: seq<char>, x: nat, j: nat, q: nat)
    requires j < |s| && (x == j || (x == 0 && j == Skip(s, 0)))
    requires x <= q < End(s, j)
    ensures q !in Cuts(s, 0)
  {
    CutsFollowTokens(s, 0);
    EndStops(s, j);
    if q >= j {
      assert !IsWhite(s[q]);
    }
  }

  /**
   * Read back from the cut buffer, a token pointer yields exactly that token,
   * and the start of the buffer (argv[0]) yields the leading delimiters
   * followed by the first token.
   */
  lemma TokenText(b: seq<char>, n: nat, x: nat, j: nat)
    requires CString(b, n)
    requires j in Starts(b[..n], 0)
    requires x == j || (x == 0 && j == Skip(b[..n], 0))
    ensures var s := b[..n];
      ReadStr(Cut(b, Cuts(s, 0)), x) == s[x..End(s, j)]
  {
    var s := b[..n];
    var c := Cut(b, Cuts(s, 0));
    var e := End(s, j);
    forall q: nat | x <= q < e
      ensures c[q] == s[q] && c[q] != NUL
    {
      NothingCutBefore(s, x, j, q);
    }
    if e < n {
      TokenEndIsCut(s, j);
    }
    ReadStrUpTo(c, x, e);
    assert c[x..e] == s[x..e];
  }

  /** One more strtok call: the token at Skip(s, i) and its cut, then the rest. */
  lemma StartsStep(s: seq<char>, i: nat)
    requires i <= |s| && Skip(s, i) < |s|
    ensures var j := Skip(s, i);
      && Starts(s, i) == [j] + Starts(s, Resume(s, j))
      && Cuts(s, i) == (if End(s, j) < |s| then {End(s, j)} else {}) + Cuts(s, Resume(s, j))
      && (forall c :: c in Cuts(s, Resume(s, j)) ==> c >= Resume(s, j))
      && (End(s, j) < |s| ==> End(s, j) < Resume(s, j))
  {
  }

  /**
   * buf_args' loop has reported the tokens ts and cut the positions done,
   * and strtok will resume at pos.
   */
  predicate Progress(s: seq<char>, pos: nat, ts: seq<nat>, done: set<nat>)
  {
    && pos <= |s|
    && ts + Starts(s, pos) == Starts(s, 0)
    && done + Cuts(s, pos) == Cuts(s, 0)
    && (forall c :: c in done ==> c < pos)
  }

  lemma ProgressInit(s: seq<char>)
    ensures Progress(s, 0, [], {})
  {
  }

  /** The bookkeeping of buf_args' loop after one more token. */
  lemma Advance(s: seq<char>, pos: nat, ts: seq<nat>, done: set<nat>)
    requires Progress(s, pos, ts, done) && Skip(s, pos) < |s|
    ensures var j := Skip(s, pos); var r := Resume(s, j);
      var done' := done + (if End(s, j) < |s| then {End(s, j)} else {});
      && Progress(s, r, ts + [j], done')
      && (|ts| > 0 ==> Pointers(ts + [j]) == Pointers(ts) + [At(j)])
  {
    var j := Skip(s, pos);
    StartsStep(s, pos);
    assert (ts + [j]) + Starts(s, Resume(s, j)) == ts + Starts(s, pos);
  }

  /** When strtok reports NULL, the loop has seen every token and made every cut. */
  lemma Finish(s: seq<char>, pos: nat, ts: seq<nat>, done: set<nat>)
    requires Progress(s, pos, ts, done) && Skip(s, pos) == |s|
    ensures ts == Starts(s, 0) && done == Cuts(s, 0)
  {
    assert Starts(s, pos) == [];
    assert ts == ts + Starts(s, pos);
  }

  /** Where nothing has been cut yet, the cut buffer still holds the original. */
  lemma CutAgrees(b: seq<char>, done: set<nat>, pos: nat)
    requires forall c :: c in done ==> c < pos
    ensures forall k :: pos <= k < |b| ==> Cut(b, done)[k] == b[k]
  {
  }

  /** Cutting one more position is a point update of the cut buffer. */
  lemma CutOneMore(b: seq<char>, done: set<nat>, e: nat)
    requires e < |b|
    ensures Cut(b, done)[e := NUL] == Cut(b, done + {e})
  {
  }

  // ---------------------------------------------------------------------------
  // The code: strtok on the buffer, and buf_args' loop around it.

  /**
   * strtok resuming at `from`: skip delimiters; at the terminator report
   * NULL; otherwise scan the token, overwrite the delimiter after it with
   * NUL (if there is one) and resume just past that delimiter.  `s` is the
   * original string; the buffer still agrees with it from `from` on.
   */
  method StrTok(buf: array<char>, from: nat, ghost s: seq<char>) returns (tok: Ptr, next: nat)
    requires |s| < buf.Length && buf[|s|] == NUL && from <= |s|
    requires forall k :: from <= k < |s| ==> buf[k] == s[k] && s[k] != NUL
    modifies buf
    ensures tok == (if Skip(s, from) == |s| then Null else At(Skip(s, from)))
    ensures tok.At? ==> next == Resume(s, tok.pos)
    ensures buf[..] == if tok.At? && End(s, tok.pos) < |s|
                       then old(buf[..])[End(s, tok.pos) := NUL] else old(buf[..])
  {
    var j := from;
    while buf[j] != NUL && IsWhite(buf[j])
      invariant from <= j <= |s|
      invariant Skip(s, j) == Skip(s, from)
      decreases |s| - j
    {
      j := j + 1;
    }
    if buf[j] == NUL {
      return Null, j;
    }
    var k := j;
    while buf[k] != NUL && !IsWhite(buf[k])
      invariant j <= k <= |s|
      invariant End(s, k) == End(s, j)
      decreases |s| - k
    {
      k := k + 1;
    }
    tok := At(j);
    if buf[k] != NUL {
      buf[k] := NUL;
      next := k + 1;
    } else {
      next := k;
    }
  }

  /**
   * The while loop of buf_args: call strtok until it reports NULL, appending
   * each token pointer to argv.  On return every token has been seen and
   * every cut made.
   */
  method TokenLoop(buf: array<char>, pos0: nat, argv0: seq<Ptr>,
                   ghost s: seq<char>, ghost b0: seq<char>, ghost ts0: seq<nat>, ghost done0: set<nat>)
    returns (argv: seq<Ptr>)
    requires |s| < buf.Length && buf[|s|] == NUL
    requires forall k :: 0 <= k < |s| ==> s[k] != NUL
    requires Progress(s, pos0, ts0, done0) && |ts0| > 0 && argv0 == Pointers(ts0)
    requires buf[..] == Cut(b0, done0)
    requires forall k :: pos0 <= k < |s| ==> buf[k] == s[k]
    modifies buf
    ensures |Starts(s, 0)| > 0 && argv == Pointers(Starts(s, 0))
    ensures buf[..] == Cut(b0, Cuts(s, 0))
  {
    var pos := pos0;
    ghost var ts := ts0;
    ghost var done := done0;
    argv := argv0;
    while true
      invariant Progress(s, pos, ts, done)
      invariant buf[..] == Cut(b0, done)
      invariant forall k :: pos <= k < |s| ==> buf[k] == s[k]
      invariant |ts| > 0 && argv == Pointers(ts)
      decreases |s| - pos
    {
      var tok, next := StrTok(buf, pos, s);
      if tok == Null {
        break;
      }
      Advance(s, pos, ts, done);
      if End(s, tok.pos) < |s| {
        CutOneMore(b0, done, End(s, tok.pos));
        done := done + {End(s, tok.pos)};
      }
      ts := ts + [tok.pos];
      argv := argv + [tok];
      pos := next;
      CutAgrees(b0, done, pos);
    }
    Finish(s, pos, ts, done);
  }

  /**
   * buf_args: tokenize the C string in buf.  None stands for the -1 return
   * when strtok finds no token at all; otherwise the result is what the
   * caller's option function is called with: argc counts the tokens, argv
   * starts at the buffer itself, points at each later token and ends with
   * null, and the buffer has a NUL over the delimiter after each token.
   */
  method BufArgsSplit(buf: array<char>, ghost n: nat) returns (r: Option<Args>)
    requires CString(buf[..], n)
    modifies buf
    ensures var s := old(buf[..n]);
      var ts := Starts(s, 0);
      && (r.None? <==> ts == [])
      && (r.Some? ==> r.value == Args(|ts|, ArgVector(ts)))
      && buf[..] == Cut(old(buf[..]), Cuts(s, 0))
  {
    ghost var s := buf[..n];
    ghost var b0 := buf[..];
    ProgressInit(s);
    var tok, pos := StrTok(buf, 0, s);
    if tok == Null {
      Finish(s, 0, [], {});
      return None;
    }
    Advance(s, 0, [], {});
    ghost var done: set<nat> := {};
    if End(s, tok.pos) < n {
      CutOneMore(b0, {}, End(s, tok.pos));
      done := {End(s, tok.pos)};
    }
    CutAgrees(b0, done, pos);
    var argv := TokenLoop(buf, pos, [At(0)], s, b0, [tok.pos], done);
    argv := argv + [Null];
    return Some(Args(|argv| - 1, argv));
  }

  /**
   * buf_args with the caller's option function: -1 when buf holds no
   * token, and then the function is not consulted; otherwise whatever the
   * function returns for argc, argv and the changed buffer that the argv
   * entries point into.
   */
  method BufArgs(buf: array<char>, optfunc: (nat, seq<Ptr>, seq<char>) -> int, ghost n: nat) returns (rval: int)
    requires CString(buf[..], n)
    modifies buf
    ensures var s := old(buf[..n]);
      var ts := Starts(s, 0);
      && rval == (if ts == [] then -1 else optfunc(|ts|, ArgVector(ts), buf[..]))
      && buf[..] == Cut(old(buf[..]), Cuts(s, 0))
  {
    var a := BufArgsSplit(buf, n);
    if a.None? {
      return -1;
    }
    rval := optfunc(a.value.argc, a.value.argv, buf[..]);
  }
}
