/**
 * Bit maps over chunks of `bitchunk_t` (an unsigned short): the macros
 * BITMAP_CHUNKS, MAP_CHUNK, CHUNK_OFFSET, GET_BIT/SET_BIT/UNSET_BIT and their
 * `sys_map_t` variants get_sys_bit/set_sys_bit/unset_sys_bit of
 * kernel/const.h.  The C macros update one chunk of the map in place; here a
 * map is a sequence of chunks and the set and unset operations return the
 * updated sequence, which the callers store back into the owning record.
 *
 * The proofs reason about one chunk and symbolic shift counts first (OrSets,
 * OrKeepsOthers, ChunkHasAndNot) and only then about the position of a bit in
 * the map, which
 * keeps the bit-vector reasoning small.
 */
module Bitmap {
  import opened KConst

  /** sizeof(bitchunk_t) * CHAR_BIT */
  const BITCHUNK_BITS: int := 16

  /** BITMAP_CHUNKS(n): chunks needed for n bits, rounded up. */
  function BitmapChunks(nrBits: nat): (c: nat)
    ensures c * BITCHUNK_BITS >= nrBits
    ensures c > 0 ==> (c - 1) * BITCHUNK_BITS < nrBits
  {
    (nrBits + BITCHUNK_BITS - 1) / BITCHUNK_BITS
  }

  /** NR_SYS_CHUNKS = BITMAP_CHUNKS(NR_SYS_PROCS) */
  const NR_SYS_CHUNKS: nat := BitmapChunks(NR_SYS_PROCS)

  lemma SysChunksHoldEverySysProc()
    ensures NR_SYS_CHUNKS == 2
    ensures NR_SYS_CHUNKS * BITCHUNK_BITS >= NR_SYS_PROCS
  {
  }

  /** MAP_CHUNK: the index of the chunk holding `bit`. */
  function MapChunk(bit: nat): nat { bit / BITCHUNK_BITS }

  /** CHUNK_OFFSET: the position of `bit` inside its chunk. */
  function ChunkOffset(bit: nat): (o: nat)
    ensures o < BITCHUNK_BITS
  {
    bit % BITCHUNK_BITS
  }

  /** A bit is stored at chunk `bit / 16`, offset `bit % 16`, and this placement is one-to-one. */
  lemma PlacementIsOneToOne(b1: nat, b2: nat)
    ensures b1 == MapChunk(b1) * BITCHUNK_BITS + ChunkOffset(b1)
    ensures (MapChunk(b1) == MapChunk(b2) && ChunkOffset(b1) == ChunkOffset(b2)) <==> b1 == b2
  {
  }

  /** An offset inside a chunk as the shift count of the macros, value by value. */
  function ShiftCount(o: nat): (k: bv16)
    requires o < BITCHUNK_BITS
    ensures k < 16
  {
    if o < 8 then
      if o == 0 then 0 else if o == 1 then 1 else if o == 2 then 2 else if o == 3 then 3
      else if o == 4 then 4 else if o == 5 then 5 else if o == 6 then 6 else 7
    else
      if o == 8 then 8 else if o == 9 then 9 else if o == 10 then 10 else if o == 11 then 11
      else if o == 12 then 12 else if o == 13 then 13 else if o == 14 then 14 else 15
  }

  /** Different offsets have different shift counts. */
  lemma ShiftCountInjective(o1: nat, o2: nat)
    requires o1 < BITCHUNK_BITS && o2 < BITCHUNK_BITS
    ensures ShiftCount(o1) == ShiftCount(o2) <==> o1 == o2
  {
  }

  /** `1 << k`, the mask of bit `k` of a chunk. */
  function Bit(k: bv16): bv16
    requires k < 16
  {
    (1 as bv16) << k
  }

  /** Bit `k` of a chunk is set. */
  predicate ChunkHas(x: bv16, k: bv16)
    requires k < 16
  {
    x & Bit(k) != 0
  }

  /** Or-ing in bit `k` sets it. */
  lemma OrSets(x: bv16, k: bv16)
    requires k < 16
    ensures ChunkHas(x | Bit(k), k)
  {
  }

  /** Or-ing in bit `k1` leaves every other bit as it was. */
  lemma OrKeepsOthers(x: bv16, k1: bv16, k2: bv16)
    requires k1 < 16 && k2 < 16 && k1 != k2
    ensures ChunkHas(x | Bit(k1), k2) == ChunkHas(x, k2)
  {
  }

  /** Clearing bit `k1` of a chunk clears it and leaves every other bit as it was. */
  lemma ChunkHasAndNot(x: bv16, k1: bv16, k2: bv16)
    requires k1 < 16 && k2 < 16
    ensures ChunkHas(x & !Bit(k1), k2) <==> k1 != k2 && ChunkHas(x, k2)
  {
  }

  /** The mask the macros build for `bit`: `1 << CHUNK_OFFSET(bit)`. */
  function BitMask(bit: nat): bv16
  {
    Bit(ShiftCount(ChunkOffset(bit)))
  }

  /** The chunk update of SET_BIT. */
  function OrBit(map_: seq<bv16>, bit: nat): seq<bv16>
    requires bit < |map_| * BITCHUNK_BITS
  {
    map_[MapChunk(bit) := map_[MapChunk(bit)] | BitMask(bit)]
  }

  /** The chunk update of UNSET_BIT. */
  function AndNotBit(map_: seq<bv16>, bit: nat): seq<bv16>
    requires bit < |map_| * BITCHUNK_BITS
  {
    map_[MapChunk(bit) := map_[MapChunk(bit)] & !BitMask(bit)]
  }

  /** GET_BIT / get_sys_bit, read as a truth value. */
  predicate GetBit(map_: seq<bv16>, bit: nat)
    requires bit < |map_| * BITCHUNK_BITS
  {
    ChunkHas(map_[MapChunk(bit)], ShiftCount(ChunkOffset(bit)))
  }

  /** SET_BIT / set_sys_bit: the map afterwards holds the old bits and `bit`, and no other. */
  function SetBit(map_: seq<bv16>, bit: nat): (r: seq<bv16>)
    requires bit < |map_| * BITCHUNK_BITS
    ensures |r| == |map_|
    ensures forall b: nat :: b < |map_| * BITCHUNK_BITS ==> (GetBit(r, b) <==> b == bit || GetBit(map_, b))
  {
    SetBitMembers(map_, bit);
    OrBit(map_, bit)
  }

  /** UNSET_BIT / unset_sys_bit: the map afterwards holds the old bits except `bit`. */
  function UnsetBit(map_: seq<bv16>, bit: nat): (r: seq<bv16>)
    requires bit < |map_| * BITCHUNK_BITS
    ensures |r| == |map_|
    ensures forall b: nat :: b < |map_| * BITCHUNK_BITS ==> (GetBit(r, b) <==> b != bit && GetBit(map_, b))
  {
    UnsetBitMembers(map_, bit);
    AndNotBit(map_, bit)
  }

  /** Setting `bit` leaves the bits of the other chunks as they were. */
  lemma OrBitOtherChunk(map_: seq<bv16>, bit: nat, b: nat)
    requires bit < |map_| * BITCHUNK_BITS && b < |map_| * BITCHUNK_BITS
    requires MapChunk(b) != MapChunk(bit)
    ensures b != bit && (GetBit(OrBit(map_, bit), b) == GetBit(map_, b))
  {
  }

  /** Setting `bit` inside the chunk of bit `b`. */
  lemma OrBitSameChunk(map_: seq<bv16>, bit: nat, b: nat)
    requires bit < |map_| * BITCHUNK_BITS && b < |map_| * BITCHUNK_BITS
    requires MapChunk(b) == MapChunk(bit)
    ensures GetBit(OrBit(map_, bit), b) <==> b == bit || GetBit(map_, b)
  {
    if b == bit {
      OrSets(map_[MapChunk(bit)], ShiftCount(ChunkOffset(bit)));
    } else {
      PlacementIsOneToOne(b, bit);
      ShiftCountInjective(ChunkOffset(b), ChunkOffset(bit));
      OrKeepsOthers(map_[MapChunk(bit)], ShiftCount(ChunkOffset(bit)), ShiftCount(ChunkOffset(b)));
    }
  }

  /** Setting `bit`, as seen from bit `b`. */
  lemma SetBitAt(map_: seq<bv16>, bit: nat, b: nat)
    requires bit < |map_| * BITCHUNK_BITS && b < |map_| * BITCHUNK_BITS
    ensures GetBit(OrBit(map_, bit), b) <==> b == bit || GetBit(map_, b)
  {
    if MapChunk(b) == MapChunk(bit) {
      OrBitSameChunk(map_, bit, b);
    } else {
      OrBitOtherChunk(map_, bit, b);
    }
  }

  /** Clearing `bit` leaves the bits of the other chunks as they were. */
  lemma AndNotBitOtherChunk(map_: seq<bv16>, bit: nat, b: nat)
    requires bit < |map_| * BITCHUNK_BITS && b < |map_| * BITCHUNK_BITS
    requires MapChunk(b) != MapChunk(bit)
    ensures b != bit && (GetBit(AndNotBit(map_, bit), b) == GetBit(map_, b))
  {
  }

  /** Clearing `bit` inside the chunk of bit `b`. */
  lemma AndNotBitSameChunk(map_: seq<bv16>, bit: nat, b: nat)
    requires bit < |map_| * BITCHUNK_BITS && b < |map_| * BITCHUNK_BITS
    requires MapChunk(b) == MapChunk(bit)
    ensures GetBit(AndNotBit(map_, bit), b) <==> b != bit && GetBit(map_, b)
  {
    PlacementIsOneToOne(b, bit);
    ShiftCountInjective(ChunkOffset(b), ChunkOffset(bit));
    ChunkHasAndNot(map_[MapChunk(bit)], ShiftCount(ChunkOffset(bit)), ShiftCount(ChunkOffset(b)));
  }

  /** Clearing `bit`, as seen from bit `b`. */
  lemma UnsetBitAt(map_: seq<bv16>, bit: nat, b: nat)
    requires bit < |map_| * BITCHUNK_BITS && b < |map_| * BITCHUNK_BITS
    ensures GetBit(AndNotBit(map_, bit), b) <==> b != bit && GetBit(map_, b)
  {
    if MapChunk(b) == MapChunk(bit) {
      AndNotBitSameChunk(map_, bit, b);
    } else {
      AndNotBitOtherChunk(map_, bit, b);
    }
  }

  lemma SetBitMembers(map_: seq<bv16>, bit: nat)
    requires bit < |map_| * BITCHUNK_BITS
    ensures var r := OrBit(map_, bit);
            forall b: nat :: b < |map_| * BITCHUNK_BITS ==> (GetBit(r, b) <==> b == bit || GetBit(map_, b))
  {
    forall b: nat | b < |map_| * BITCHUNK_BITS
      ensures GetBit(OrBit(map_, bit), b) <==> b == bit || GetBit(map_, b)
    {
      SetBitAt(map_, bit, b);
    }
  }

  lemma UnsetBitMembers(map_: seq<bv16>, bit: nat)
    requires bit < |map_| * BITCHUNK_BITS
    ensures var r := AndNotBit(map_, bit);
            forall b: nat :: b < |map_| * BITCHUNK_BITS ==> (GetBit(r, b) <==> b != bit && GetBit(map_, b))
  {
    forall b: nat | b < |map_| * BITCHUNK_BITS
      ensures GetBit(AndNotBit(map_, bit), b) <==> b != bit && GetBit(map_, b)
    {
      UnsetBitAt(map_, bit, b);
    }
  }

  /** The set of bits a map holds. */
  function Members(map_: seq<bv16>): (s: set<nat>)
    ensures forall b: nat :: b in s <==> b < |map_| * BITCHUNK_BITS && GetBit(map_, b)
  {
    set b: nat | b < |map_| * BITCHUNK_BITS && GetBit(map_, b)
  }

  /** Setting a bit adds exactly that bit to the set. */
  lemma SetBitIsInsert(map_: seq<bv16>, bit: nat)
    requires bit < |map_| * BITCHUNK_BITS
    ensures Members(SetBit(map_, bit)) == Members(map_) + {bit}
  {
  }

  /** Unsetting a bit removes exactly that bit from the set. */
  lemma UnsetBitIsRemove(map_: seq<bv16>, bit: nat)
    requires bit < |map_| * BITCHUNK_BITS
    ensures Members(UnsetBit(map_, bit)) == Members(map_) - {bit}
  {
  }

  /** Setting a bit twice leaves the same map as setting it once. */
  lemma SetBitIdempotent(map_: seq<bv16>, bit: nat)
    requires bit < |map_| * BITCHUNK_BITS
    ensures SetBit(SetBit(map_, bit), bit) == SetBit(map_, bit)
  {
    var c := MapChunk(bit);
    assert (map_[c] | BitMask(bit)) | BitMask(bit) == map_[c] | BitMask(bit);
  }

  /** The all-zero map of n chunks holds no bit. */
  function EmptyMap(n: nat): (m: seq<bv16>)
    ensures |m| == n && Members(m) == {}
  {
    seq(n, _ => 0 as bv16)
  }

  /** A map whose first chunk is `c` and whose other chunks are zero (the boot code copies a send mask into chunk 0). */
  function FirstChunkMap(c: bv16, n: nat): (m: seq<bv16>)
    requires n >= 1
    ensures |m| == n
    ensures forall b: nat :: b < n * BITCHUNK_BITS ==> (GetBit(m, b) <==> b < BITCHUNK_BITS && ChunkHas(c, ShiftCount(ChunkOffset(b))))
  {
    var m := [c] + EmptyMap(n - 1);
    forall b: nat | b < n * BITCHUNK_BITS
      ensures GetBit(m, b) <==> b < BITCHUNK_BITS && ChunkHas(c, ShiftCount(ChunkOffset(b)))
    {
      if b < BITCHUNK_BITS {
        assert MapChunk(b) == 0;
      } else {
        assert m[MapChunk(b)] == 0;
      }
    }
    m
  }
}
