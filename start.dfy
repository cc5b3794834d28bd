/**
 * The boot-parameter lookup and the machine decoding of kernel/start.c.
 * The boot monitor hands the kernel its parameters as NUL-terminated
 * `key=value` entries, ended by an empty entry; `get_value` finds the value
 * of a key and `cstart` uses it to decide the bus and the video adapter.
 */
module Start {
  import opened KConst


  /** sizeof(params) in cstart: 128 pointers of 4 bytes. */
  const PARAMS_BYTES: nat := 128 * 4

  /**
   * The parameter buffer as get_value needs it: it ends with an empty
   * entry, so its last two characters are NUL (or it is a lone NUL).
   */
  predicate Terminated(p: seq<char>)
  {
    |p| >= 1 && p[|p| - 1] == NUL && (|p| == 1 || p[|p| - 2] == NUL)
  }

  /** The position of the first NUL at or after `i`. */
  function NulFrom(p: seq<char>, i: nat): (j: nat)
    requires i < |p| && p[|p| - 1] == NUL
    ensures i <= j < |p| && p[j] == NUL
    ensures forall k :: i <= k < j ==> p[k] != NUL
    decreases |p| - i
  {
    if p[i] == NUL then i else NulFrom(p, i + 1)
  }

  /** A non-empty entry of a terminated buffer ends before the buffer's last character. */
  lemma EntryEndsBeforeLast(p: seq<char>, e: nat)
    requires Terminated(p) && e < |p| && p[e] != NUL
    ensures NulFrom(p, e) < |p| - 1
  {
  }

  /** The entry at `e` has key `name` exactly: `name` followed by '='. */
  predicate KeyMatches(p: seq<char>, e: nat, name: seq<char>)
  {
    e + |name| < |p| && p[e..e + |name|] == name && p[e + |name|] == '='
  }

  /**
   * The position just past '=' in the first entry from `e` on whose key is
   * `name`, or None when the empty entry comes first.
   */
  function FindFrom(p: seq<char>, name: seq<char>, e: nat): (r: Option<nat>)
    requires Terminated(p) && e < |p|
    ensures r.Some? ==> |name| < r.value < |p| && p[r.value - 1] == '='
    decreases |p| - e
  {
    if p[e] == NUL then None
    else if KeyMatches(p, e, name) then Some(e + |name| + 1)
    else
      EntryEndsBeforeLast(p, e);
      FindFrom(p, name, NulFrom(p, e) + 1)
  }

  /** An entry whose key is `name` is where the scan stops. */
  lemma FindFromHits(p: seq<char>, name: seq<char>, e: nat)
    requires Terminated(p) && e < |p| && p[e] != NUL && KeyMatches(p, e, name)
    ensures FindFrom(p, name, e) == Some(e + |name| + 1)
  {
  }

  /** The empty entry ends the scan. */
  lemma FindFromEnds(p: seq<char>, name: seq<char>, e: nat)
    requires Terminated(p) && e < |p| && p[e] == NUL
    ensures FindFrom(p, name, e) == None
  {
  }

  /** An entry whose key is not `name` is skipped, up to its NUL. */
  lemma FindFromSkips(p: seq<char>, name: seq<char>, e: nat)
    requires Terminated(p) && e < |p| && p[e] != NUL && !KeyMatches(p, e, name)
    ensures NulFrom(p, e) + 1 < |p|
    ensures FindFrom(p, name, e) == FindFrom(p, name, NulFrom(p, e) + 1)
  {
    EntryEndsBeforeLast(p, e);
  }

  /** The value a returned pointer points at: the characters up to the next NUL. */
  function ValueAt(p: seq<char>, k: nat): (v: seq<char>)
    requires k < |p| && p[|p| - 1] == NUL
    ensures NUL !in v
  {
    p[k..NulFrom(p, k)]
  }

  /**
   * get_value: walks the entries; in each it compares the key with `name`
   * character by character, returns the position after '=' if `name` ended
   * exactly there, and otherwise skips past the entry's NUL.  The scan ends
   * at the empty entry, returning NIL_PTR (None).
   */
  method GetValue(params: seq<char>, name: seq<char>) returns (r: Option<nat>)
    requires Terminated(params) && NUL !in name
    ensures r == FindFrom(params, name, 0)
  {
    var envp := 0;
    while params[envp] != NUL
      invariant envp < |params|
      invariant FindFrom(params, name, envp) == FindFrom(params, name, 0)
      decreases |params| - envp
    {
      var start := envp;
      var namep;
      namep, envp := CompareKey(params, name, start);
      if namep == |name| && params[envp] == '=' {
        FindFromHits(params, name, start);
        return Some(envp + 1);
      }
      FindFromSkips(params, name, start);
      envp := SkipEntry(params, start, envp);
    }
    FindFromEnds(params, name, envp);
    return None;
  }

  /**
   * The inner loop of get_value: advance over `name` and the entry together
   * while they agree.  The entry's key is `name` exactly when all of `name`
   * was consumed and '=' follows.
   */
  method CompareKey(params: seq<char>, name: seq<char>, start: nat) returns (namep: nat, envp: nat)
    requires Terminated(params) && NUL !in name && start < |params| && params[start] != NUL
    ensures envp == start + namep && namep <= |name| && envp <= NulFrom(params, start)
    ensures (namep == |name| && params[envp] == '=') <==> KeyMatches(params, start, name)
  {
    EntryEndsBeforeLast(params, start);
    namep := 0;
    envp := start;
    while namep < |name| && name[namep] == params[envp]
      invariant 0 <= namep <= |name| && envp == start + namep
      invariant envp <= NulFrom(params, start)
      invariant params[start..envp] == name[..namep]
    {
      assert params[start..envp + 1] == params[start..envp] + [params[envp]];
      assert name[..namep + 1] == name[..namep] + [name[namep]];
      namep := namep + 1;
      envp := envp + 1;
    }
    if namep == |name| {
      assert name[..namep] == name;
    }
  }

  /** `while (*envp++ != 0);`: move past the NUL that ends the entry at `start`. */
  method SkipEntry(params: seq<char>, start: nat, from: nat) returns (next: nat)
    requires Terminated(params) && start <= from < |params| && params[start] != NUL
    requires from <= NulFrom(params, start)
    ensures next == NulFrom(params, start) + 1 && next < |params|
  {
    EntryEndsBeforeLast(params, start);
    next := from;
    while params[next] != NUL
      invariant start <= next <= NulFrom(params, start)
      decreases |params| - next
    {
      next := next + 1;
    }
    next := next + 1;
  }

  // ---------------------------------------------------------------------
  // The parameters as the list of entries the boot monitor writes.

  /** Entries as the monitor writes them: non-empty and free of NUL. */
  predicate WellFormed(entries: seq<string>)
  {
    forall i :: 0 <= i < |entries| ==> |entries[i]| > 0 && NUL !in entries[i]
  }

  /** The buffer for a list of entries: each entry followed by NUL, then the empty entry. */
  function Encode(entries: seq<string>): (p: seq<char>)
    ensures |p| >= 1 && p[|p| - 1] == NUL
  {
    if |entries| == 0 then [NUL] else entries[0] + [NUL] + Encode(entries[1..])
  }

  lemma EncodeTerminated(entries: seq<string>)
    requires WellFormed(entries)
    ensures Terminated(Encode(entries))
  {
    if |entries| > 0 {
      assert WellFormed(entries[1..]);
      EncodeTerminated(entries[1..]);
    }
  }

  /** Entry `entry` has the key `name`. */
  predicate HasKey(entry: string, name: string)
  {
    |entry| > |name| && entry[..|name| + 1] == name + "="
  }

  /** getenv on the entry list: the rest of the first entry whose key is `name`. */
  function Lookup(entries: seq<string>, name: string): (r: Option<string>)
  {
    if |entries| == 0 then None
    else if HasKey(entries[0], name) then Some(entries[0][|name| + 1..])
    else Lookup(entries[1..], name)
  }

  /** Lookup finds `name=value` in the first entry with key `name`, and None means no entry has that key. */
  lemma {:induction false} LookupFirst(entries: seq<string>, name: string)
    ensures Lookup(entries, name).None? <==> forall i :: 0 <= i < |entries| ==> !HasKey(entries[i], name)
    ensures Lookup(entries, name).Some? ==>
      exists i :: 0 <= i < |entries| && entries[i] == name + "=" + Lookup(entries, name).value
        && forall j :: 0 <= j < i ==> !HasKey(entries[j], name)
    decreases |entries|
  {
    if |entries| > 0 {
      LookupFirst(entries[1..], name);
      if HasKey(entries[0], name) {
        assert entries[0] == entries[0][..|name| + 1] + entries[0][|name| + 1..];
      } else if Lookup(entries, name).Some? {
        var i :| 0 <= i < |entries[1..]| && entries[1..][i] == name + "=" + Lookup(entries, name).value
          && forall j :: 0 <= j < i ==> !HasKey(entries[1..][j], name);
        assert entries[i + 1] == entries[1..][i];
        forall j | 0 <= j < i + 1 ensures !HasKey(entries[j], name) {
          if j > 0 { assert entries[j] == entries[1..][j - 1]; }
        }
      } else {
        forall i | 0 <= i < |entries| ensures !HasKey(entries[i], name) {
          if i > 0 { assert entries[i] == entries[1..][i - 1]; }
        }
      }
    }
  }

  /** The NUL that ends a NUL-free run is the first NUL from anywhere inside the run. */
  lemma NulFromRun(p: seq<char>, i: nat, j: nat)
    requires i <= j < |p| && p[|p| - 1] == NUL && p[j] == NUL
    requires forall k :: i <= k < j ==> p[k] != NUL
    ensures NulFrom(p, i) == j
    decreases j - i
  {
    if i < j {
      NulFromRun(p, i + 1, j);
    }
  }

  /** The first entry of a buffer matches `name` exactly when it starts with `name=`. */
  lemma KeyMatchesEntry(p: seq<char>, e: nat, entry: string, name: string)
    requires e + |entry| < |p| && p[e..e + |entry|] == entry && p[e + |entry|] == NUL
    requires NUL !in entry && NUL !in name
    ensures KeyMatches(p, e, name) <==> HasKey(entry, name)
  {
    if |entry| > |name| {
      assert p[e..e + |name|] == entry[..|name|];
      assert p[e + |name|] == entry[|name|];
      if KeyMatches(p, e, name) {
        assert entry[..|name| + 1] == entry[..|name|] + [entry[|name|]];
      }
    }
  }

  /** `entries` are laid out in `p` from position `e` on, each followed by NUL, then the empty entry. */
  predicate EncodedAt(p: seq<char>, e: nat, entries: seq<string>)
    decreases |entries|
  {
    if |entries| == 0 then e < |p| && p[e] == NUL
    else
      var n := |entries[0]|;
      && e + n < |p| && p[e..e + n] == entries[0] && p[e + n] == NUL
      && EncodedAt(p, e + n + 1, entries[1..])
  }

  /** A layout stays valid behind a prefix. */
  lemma {:induction false} EncodedAtShift(x: seq<char>, q: seq<char>, e: nat, entries: seq<string>)
    requires EncodedAt(q, e, entries)
    ensures EncodedAt(x + q, |x| + e, entries)
    decreases |entries|
  {
    if |entries| > 0 {
      var n := |entries[0]|;
      assert (x + q)[|x| + e..|x| + e + n] == q[e..e + n];
      EncodedAtShift(x, q, e + n + 1, entries[1..]);
    }
  }

  /** Encode lays the entries out from position 0. */
  lemma {:induction false} EncodeLayout(entries: seq<string>)
    ensures EncodedAt(Encode(entries), 0, entries)
    decreases |entries|
  {
    if |entries| > 0 {
      var head := entries[0] + [NUL];
      EncodeLayout(entries[1..]);
      EncodedAtShift(head, Encode(entries[1..]), 0, entries[1..]);
      assert Encode(entries) == head + Encode(entries[1..]);
      assert Encode(entries)[..|entries[0]|] == entries[0];
    }
  }

  /** The first entry has key `name`: the scan stops there, at the entry's value. */
  lemma FindEncodedHit(p: seq<char>, e: nat, entries: seq<string>, name: string)
    requires WellFormed(entries) && NUL !in name && |entries| > 0
    requires Terminated(p) && EncodedAt(p, e, entries)
    requires HasKey(entries[0], name)
    ensures var r := FindFrom(p, name, e);
      && r.Some? && Lookup(entries, name).Some?
      && ValueAt(p, r.value) == Lookup(entries, name).value
  {
    var entry := entries[0];
    KeyMatchesEntry(p, e, entry, name);
    assert FindFrom(p, name, e) == Some(e + |name| + 1);
    NulFromRun(p, e + |name| + 1, e + |entry|);
    assert p[e + |name| + 1..e + |entry|] == entry[|name| + 1..];
  }

  /** The first entry has another key: the scan and the lookup both go on with the rest. */
  lemma FindEncodedSkip(p: seq<char>, e: nat, entries: seq<string>, name: string)
    requires WellFormed(entries) && NUL !in name && |entries| > 0
    requires Terminated(p) && EncodedAt(p, e, entries)
    requires !HasKey(entries[0], name)
    ensures WellFormed(entries[1..])
    ensures e + |entries[0]| + 1 < |p|
    ensures FindFrom(p, name, e) == FindFrom(p, name, e + |entries[0]| + 1)
    ensures Lookup(entries, name) == Lookup(entries[1..], name)
  {
    var entry := entries[0];
    KeyMatchesEntry(p, e, entry, name);
    assert p[e] == entry[0];
    FindFromSkips(p, name, e);
    NulFromRun(p, e, e + |entry|);
    assert WellFormed(entries[1..]);
  }

  lemma {:induction false} FindEncoded(p: seq<char>, e: nat, entries: seq<string>, name: string)
    requires WellFormed(entries) && NUL !in name
    requires Terminated(p) && EncodedAt(p, e, entries)
    ensures e < |p|
    ensures var r := FindFrom(p, name, e);
      && (r.None? <==> Lookup(entries, name).None?)
      && (r.Some? ==> ValueAt(p, r.value) == Lookup(entries, name).value)
    decreases |entries|
  {
    if |entries| > 0 {
      if HasKey(entries[0], name) {
        FindEncodedHit(p, e, entries, name);
      } else {
        FindEncodedSkip(p, e, entries, name);
        FindEncoded(p, e + |entries[0]| + 1, entries[1..], name);
      }
    }
  }

  /**
   * get_value over a monitor-written buffer is getenv: it finds a value
   * exactly when some entry is `name=value`, and then the first such value.
   * A key that extends `name` or is a prefix of it never matches, since the
   * '=' must follow `name` at once.
   */
  lemma GetValueIsLookup(entries: seq<string>, name: string)
    requires WellFormed(entries) && NUL !in name
    ensures Terminated(Encode(entries))
    ensures var r := FindFrom(Encode(entries), name, 0);
      && (r.None? <==> Lookup(entries, name).None?)
      && (r.Some? ==> ValueAt(Encode(entries), r.value) == Lookup(entries, name).value)
  {
    EncodeTerminated(entries);
    EncodeLayout(entries);
    FindEncoded(Encode(entries), 0, entries, name);
  }

  // ---------------------------------------------------------------------
  // cstart

  /**
   * kinfo.params_size: the monitor's parameter size, cut to the buffer
   * less two bytes.
   */
  function ParamsSize(parmsize: nat): (n: nat)
    ensures n <= parmsize && n <= PARAMS_BYTES - 2
    ensures n == parmsize || n == PARAMS_BYTES - 2
  {
    if parmsize < PARAMS_BYTES - 2 then parmsize else PARAMS_BYTES - 2
  }

  /** The fields of `machine` that cstart decides (a 32-bit kernel always runs protected). */
  datatype Machine = Machine(protected: bool, pcAt: bool, psMca: bool, vduEga: bool, vduVga: bool)

  /** The string a lookup result points at, for strcmp. */
  function Value(params: seq<char>, r: Option<nat>): Option<string>
    requires Terminated(params)
    requires r.Some? ==> r.value < |params|
  {
    if r.Some? then Some(ValueAt(params, r.value)) else None
  }

  /**
   * cstart's machine decoding: no `bus` entry or bus "at" means a PC-AT,
   * "mca" a PS/2 with micro channel (also AT-compatible), anything else
   * neither; video "ega" sets EGA, "vga" sets both VGA and EGA.
   */
  method Cstart(params: seq<char>) returns (m: Machine)
    requires Terminated(params)
    ensures var bus := Value(params, FindFrom(params, "bus", 0));
      var video := Value(params, FindFrom(params, "video", 0));
      && m.protected
      && (m.pcAt <==> bus == None || bus == Some("at") || bus == Some("mca"))
      && (m.psMca <==> bus == Some("mca"))
      && (m.vduVga <==> video == Some("vga"))
      && (m.vduEga <==> video == Some("ega") || video == Some("vga"))
  {
    m := Machine(true, false, false, false, false);
    var bus := GetValue(params, "bus");
    if bus.None? || ValueAt(params, bus.value) == "at" {
      m := m.(pcAt := true);
    } else if ValueAt(params, bus.value) == "mca" {
      m := m.(pcAt := true, psMca := true);
    }
    var video := GetValue(params, "video");
    if video.Some? && ValueAt(params, video.value) == "ega" {
      m := m.(vduEga := true);
    }
    if video.Some? && ValueAt(params, video.value) == "vga" {
      m := m.(vduVga := true, vduEga := true);
    }
  }
}
