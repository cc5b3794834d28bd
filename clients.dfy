/*
 * The open server's table of clients: a growable array of (fd, uid)
 * entries in which an fd of -1 marks a free entry.  client_add takes the
 * first free entry, growing the array by NALLOC entries when none is free;
 * client_del frees the entry holding a given fd.
 */
module Clients {
  import opened KConst

  /** Entries added by each allocation. */
  const NALLOC: nat := 10

  /** The fd value that marks an entry as available. */
  const FREE_FD: int := -1

  datatype Client = Client(fd: int, uid: nat)

  /** A freshly allocated entry: available; its uid is never read before it is set. */
  const FreshClient: Client := Client(FREE_FD, 0)

  // ---------------------------------------------------------------------------
  // The table as a value

  /** The index of the first available entry, or |cs| if there is none. */
  function FirstFree(cs: seq<Client>): (i: nat)
    ensures i <= |cs|
    ensures i < |cs| ==> cs[i].fd == FREE_FD
    ensures forall k :: 0 <= k < i ==> cs[k].fd != FREE_FD
  {
    if |cs| == 0 then 0
    else if cs[0].fd == FREE_FD then 0
    else 1 + FirstFree(cs[1..])
  }

  /** The index of the first entry holding fd, or |cs| if there is none. */
  function FindFd(cs: seq<Client>, fd: int): (i: nat)
    ensures i <= |cs|
    ensures i < |cs| ==> cs[i].fd == fd
    ensures forall k :: 0 <= k < i ==> cs[k].fd != fd
  {
    if |cs| == 0 then 0
    else if cs[0].fd == fd then 0
    else 1 + FindFd(cs[1..], fd)
  }

  /** The table after one client_alloc: NALLOC more available entries. */
  function Grow(cs: seq<Client>): seq<Client>
  {
    cs + seq(NALLOC, _ => FreshClient)
  }

  /** The table after client_add(fd, uid). */
  function AddTable(cs: seq<Client>, fd: int, uid: nat): seq<Client>
  {
    var t := if FirstFree(cs) < |cs| then cs else Grow(cs);
    t[FirstFree(cs) := Client(fd, uid)]
  }

  /** The table after client_del(fd), or None where client_del calls log_quit. */
  function DelTable(cs: seq<Client>, fd: int): Option<seq<Client>>
  {
    var i := FindFd(cs, fd);
    if i < |cs| then Some(cs[i := cs[i].(fd := FREE_FD)]) else None
  }

  /** The number of entries in use. */
  function InUse(cs: seq<Client>): nat
  {
    if |cs| == 0 then 0 else (if cs[0].fd != FREE_FD then 1 else 0) + InUse(cs[1..])
  }

  function Fds(cs: seq<Client>): seq<int>
  {
    seq(|cs|, k requires 0 <= k < |cs| => cs[k].fd)
  }

  // ---------------------------------------------------------------------------
  // Properties of the table operations

  /** After growing, the first free entry is the first of the new ones. */
  lemma GrowFirstFree(cs: seq<Client>)
    requires FirstFree(cs) == |cs|
    ensures FirstFree(Grow(cs)) == |cs|
  {
    var g := Grow(cs);
    assert g[|cs|] == FreshClient;
    FirstFreeIsLeast(g, |cs|);
  }

  lemma {:induction false} FirstFreeIsLeast(cs: seq<Client>, i: nat)
    requires i < |cs| && cs[i].fd == FREE_FD
    requires forall k :: 0 <= k < i ==> cs[k].fd != FREE_FD
    ensures FirstFree(cs) == i
  {
    if i > 0 {
      FirstFreeIsLeast(cs[1..], i - 1);
    }
  }

  /**
   * client_add: the returned index was the first available entry (after
   * growing only when none was), it now holds (fd, uid), every other entry
   * is as it was, and the table grew only when it was full.
   */
  lemma AddSpec(cs: seq<Client>, fd: int, uid: nat)
    ensures var t := AddTable(cs, fd, uid); var i := FirstFree(cs);
      && i < |t| && t[i] == Client(fd, uid)
      && (i < |cs| ==> cs[i].fd == FREE_FD && |t| == |cs|)
      && (i == |cs| <==> |t| == |cs| + NALLOC)
      && (forall k :: 0 <= k < |cs| && k != i ==> t[k] == cs[k])
      && (forall k :: 0 <= k < i ==> cs[k].fd != FREE_FD)
  {
  }

  /** Taking a free entry puts one more entry in use (when fd is a real descriptor). */
  lemma {:induction false} InUseUpdate(cs: seq<Client>, i: nat, c: Client)
    requires i < |cs|
    ensures InUse(cs[i := c]) + (if cs[i].fd != FREE_FD then 1 else 0)
         == InUse(cs) + (if c.fd != FREE_FD then 1 else 0)
  {
    if i == 0 {
      assert cs[i := c][1..] == cs[1..];
    } else {
      InUseUpdate(cs[1..], i - 1, c);
      assert cs[i := c][1..] == cs[1..][i - 1 := c];
    }
  }

  lemma {:induction false} InUseFresh(n: nat)
    ensures InUse(seq(n, _ => FreshClient)) == 0
  {
    if n > 0 {
      assert seq(n, _ => FreshClient)[1..] == seq(n - 1, _ => FreshClient);
      InUseFresh(n - 1);
    }
  }

  lemma {:induction false} InUseAppend(a: seq<Client>, b: seq<Client>)
    ensures InUse(a + b) == InUse(a) + InUse(b)
  {
    if |a| > 0 {
      assert (a + b)[1..] == a[1..] + b;
      InUseAppend(a[1..], b);
    } else {
      assert a + b == b;
    }
  }

  /** client_add of a real descriptor puts exactly one more client in use. */
  lemma AddCountsOne(cs: seq<Client>, fd: int, uid: nat)
    requires fd != FREE_FD
    ensures InUse(AddTable(cs, fd, uid)) == InUse(cs) + 1
  {
    var i := FirstFree(cs);
    if i < |cs| {
      InUseUpdate(cs, i, Client(fd, uid));
    } else {
      InUseAppend(cs, seq(NALLOC, _ => FreshClient));
      InUseFresh(NALLOC);
      GrowFirstFree(cs);
      InUseUpdate(Grow(cs), i, Client(fd, uid));
    }
  }

  /** client_del of a descriptor in the table takes exactly one client out of use. */
  lemma DelCountsOne(cs: seq<Client>, fd: int)
    requires fd != FREE_FD
    ensures DelTable(cs, fd).Some? ==> InUse(DelTable(cs, fd).value) + 1 == InUse(cs)
  {
    var i := FindFd(cs, fd);
    if i < |cs| {
      InUseUpdate(cs, i, cs[i].(fd := FREE_FD));
    }
  }

  /**
   * Deleting a descriptor that client_add has just stored (and that was not
   * in the table before) frees exactly the entry it took: the descriptors are
   * those of the table before the call, grown if it had to grow.
   */
  lemma AddThenDel(cs: seq<Client>, fd: int, uid: nat)
    requires fd != FREE_FD && FindFd(cs, fd) == |cs|
    ensures var t := AddTable(cs, fd, uid);
      var g := if FirstFree(cs) < |cs| then cs else Grow(cs);
      && DelTable(t, fd).Some?
      && Fds(DelTable(t, fd).value) == Fds(g)
  {
    var i := FirstFree(cs);
    var t := AddTable(cs, fd, uid);
    var g := if i < |cs| then cs else Grow(cs);
    if i == |cs| {
      GrowFirstFree(cs);
    }
    forall k | 0 <= k < i
      ensures t[k].fd != fd
    {
      assert t[k] == cs[k];
    }
    FindFdIsLeast(t, fd, i);
  }

  lemma {:induction false} FindFdIsLeast(cs: seq<Client>, fd: int, i: nat)
    requires i < |cs| && cs[i].fd == fd
    requires forall k :: 0 <= k < i ==> cs[k].fd != fd
    ensures FindFd(cs, fd) == i
  {
    if i > 0 {
      FindFdIsLeast(cs[1..], fd, i - 1);
    }
  }

  /** client_del of a descriptor that is not in the table reaches log_quit. */
  lemma DelMissing(cs: seq<Client>, fd: int)
    ensures DelTable(cs, fd).None? <==> forall k :: 0 <= k < |cs| ==> cs[k].fd != fd
  {
  }

  // ---------------------------------------------------------------------------
  // The table as the server keeps it

  class ClientTable {
    /** client[0 .. client_size-1]; empty while the array is still NULL. */
    var client: seq<Client>

    constructor ()
      ensures client == []
    {
      client := [];
    }

    /** client_alloc: grow the array by NALLOC entries and mark them available. */
    method ClientAlloc()
      modifies this
      ensures client == Grow(old(client))
    {
      var size := |client|;
      var i := size;
      while i < size + NALLOC
        invariant size <= i <= size + NALLOC
        invariant client == old(client) + seq(i - size, _ => FreshClient)
      {
        client := client + [FreshClient];
        i := i + 1;
      }
    }

    /** The search loop of client_add: the first available entry, or client_size. */
    method SearchFree() returns (i: nat)
      ensures i == FirstFree(client)
    {
      i := 0;
      while i < |client| && client[i].fd != FREE_FD
        invariant i <= |client|
        invariant forall k :: 0 <= k < i ==> client[k].fd != FREE_FD
      {
        i := i + 1;
      }
      if i < |client| {
        FirstFreeIsLeast(client, i);
      }
    }

    /**
     * client_add: allocate on the first call, take the first available
     * entry, and when there is none grow the array and search again.
     */
    method ClientAdd(fd: int, uid: nat) returns (i: nat)
      modifies this
      ensures i == FirstFree(old(client))
      ensures client == AddTable(old(client), fd, uid)
    {
      if |client| == 0 {
        ClientAlloc();
        GrowFirstFree(old(client));
      }
      i := SearchFree();
      if i == |client| {
        GrowFirstFree(client);
        ClientAlloc();
        i := SearchFree();
      }
      client := client[i := Client(fd, uid)];
    }

    /**
     * client_del: free the first entry holding fd.  Returns false where the
     * server calls log_quit (no entry holds fd); the table is then unchanged.
     */
    method ClientDel(fd: int) returns (found: bool)
      modifies this
      ensures found <==> DelTable(old(client), fd).Some?
      ensures client == if found then DelTable(old(client), fd).value else old(client)
    {
      var i := 0;
      while i < |client|
        invariant i <= |client|
        invariant forall k :: 0 <= k < i ==> client[k].fd != fd
      {
        if client[i].fd == fd {
          FindFdIsLeast(client, fd, i);
          client := client[i := client[i].(fd := FREE_FD)];
          return true;
        }
        i := i + 1;
      }
      return false;
    }
  }
}
