/** The Bloom filter at the end of an edge block: buckets of eight 32-bit lanes, one bit per
    lane for every id. */
module BloomFilters {
  import opened BlockSizing

  /** One 256-bit bucket, or one mask, as eight lanes. */
  type Lanes = l: seq<bv32> | |l| == 8 witness [0, 0, 0, 0, 0, 0, 0, 0]

  const LOG_BUCKET_BYTE_SIZE := 5
  const EMPTY: Lanes := [0, 0, 0, 0, 0, 0, 0, 0]
  const REHASH: Lanes := [
    0x47b6137b, 0x44974d91, 0x8824ad5b, 0xa2b7289d, 0x705495c7, 0x2df1424b, 0x9efc4947, 0x5c6bfb31
  ]

  const MULTIPLIER := 0x672f4a3a * 0x1_0000_0000_0000_0000 + 0x818c3f78
  const ADDEND := 0x12b51f95 * 0x1_0000_0000_0000_0000 + 0xabd04d69

  /** Multiply-shift in 128 bits: the upper 64 bits of the low 128. */
  function Hash(key: nat): nat {
    (ADDEND + MULTIPLIER * key) % 0x1_0000_0000_0000_0000_0000_0000_0000_0000 / 0x1_0000_0000_0000_0000
  }

  function LaneMask(rehash: bv32, hash: bv32): bv32 {
    1 << ((rehash * hash) >> 27)
  }

  function Mask(hash: bv32): Lanes {
    seq(8, i requires 0 <= i < 8 => LaneMask(REHASH[i], hash))
  }

  function Or(a: bv32, b: bv32): bv32 {
    a | b
  }

  predicate HasBit(a: bv32, m: bv32) {
    a & m == m
  }

  function Union(a: Lanes, b: Lanes): (c: Lanes)
    ensures forall i :: 0 <= i < 8 ==> c[i] == Or(a[i], b[i])
  {
    seq(8, i requires 0 <= i < 8 => Or(a[i], b[i]))
  }

  /** The bucket has a one wherever the mask does. */
  predicate Covers(bucket: Lanes, mask: Lanes) {
    forall i :: 0 <= i < 8 ==> HasBit(bucket[i], mask[i])
  }

  lemma UnionCovers(a: Lanes, b: Lanes, mask: Lanes)
    requires Covers(a, mask) || Covers(b, mask)
    ensures Covers(Union(a, b), mask)
  {
    forall i | 0 <= i < 8
      ensures HasBit(Or(a[i], b[i]), mask[i])
    {
      LaneUnion(a[i], b[i], mask[i]);
      LaneUnion(b[i], a[i], mask[i]);
      assert a[i] | b[i] == b[i] | a[i];
    }
  }

  lemma LaneUnion(a: bv32, b: bv32, m: bv32)
    ensures a & m == m ==> (a | b) & m == m
  {
  }

  /** With one more bit set, a bit is set if it was or is that one. */
  lemma LaneOr(a: bv32, x: bv32, y: bv32)
    requires x < 32 && y < 32
    ensures var m: bv32, n: bv32 := 1 << x, 1 << y; (a | n) & m == m <==> a & m == m || m == n
  {
  }

  /** A lane of a mask has one bit. */
  lemma LaneShift(rehash: bv32, hash: bv32) returns (x: bv32)
    ensures x < 32 && LaneMask(rehash, hash) == 1 << x
  {
    x := (rehash * hash) >> 27;
  }

  lemma OneBit(x: bv32)
    requires x < 32
    ensures var m: bv32 := 1 << x; 0 & m != m
  {
  }

  class BloomFilter {
    const logNumBuckets: nat
    const directory: array<Lanes>

    /** The ids inserted since the last clear. */
    ghost var ids: set<nat>

    /** The filter over a region of 2^logSize bytes. */
    constructor (logSize: nat)
      requires LOG_BUCKET_BYTE_SIZE < logSize
      ensures fresh(directory) && Valid() && ids == {}
      ensures logNumBuckets == logSize - LOG_BUCKET_BYTE_SIZE && SizeInBytes() == Pow2(logSize)
    {
      logNumBuckets := logSize - LOG_BUCKET_BYTE_SIZE;
      directory := new Lanes[Pow2(logSize - LOG_BUCKET_BYTE_SIZE)](_ => EMPTY);
      ids := {};
      new;
      assert Pow2(logSize) == 32 * Pow2(logSize - LOG_BUCKET_BYTE_SIZE) by { Pow2Shift(logSize); }
      forall id
        ensures BucketOf(id) < directory.Length
      {
        MaskBound(logNumBuckets);
      }
      NothingSet();
    }

    /** An empty filter knows nobody. */
    lemma NothingSet()
      requires directory.Length == Pow2(logNumBuckets) && (forall id :: BucketOf(id) < directory.Length)
      requires ids == {} && forall i :: 0 <= i < directory.Length ==> directory[i] == EMPTY
      ensures Valid()
    {
      forall id, k {:trigger LaneOk(directory[..], ids, id, k)} | 0 <= k < 8
        ensures LaneOk(directory[..], ids, id, k)
      {
        EmptyLane(id, k);
      }
    }

    function SizeInBytes(): nat {
      directory.Length * 32
    }

    /** The low bits of the hash that directory_mask, a uint32_t, lets through. */
    function BucketOf(id: nat): nat {
      Hash(id) % Pow2(if logNumBuckets < 32 then logNumBuckets else 32)
    }

    function LowHash(id: nat): bv32 {
      (Hash(id) / Pow2(logNumBuckets) % 0x1_0000_0000) as bv32
    }

    function MaskOf(id: nat): Lanes {
      Mask(LowHash(id))
    }

    /** One of `ids` has set the bit that `id` has in lane `k` of its bucket. */
    ghost predicate BitSet(ids: set<nat>, id: nat, k: nat)
      requires k < 8
    {
      exists other :: other in ids && BucketOf(other) == BucketOf(id) && MaskOf(other)[k] == MaskOf(id)[k]
    }

    /** The directory `dir` has that bit if and only if one of `ids` has set it. */
    ghost predicate LaneOk(dir: seq<Lanes>, ids: set<nat>, id: nat, k: nat)
      requires k < 8 && BucketOf(id) < |dir|
    {
      HasBit(dir[BucketOf(id)][k], MaskOf(id)[k]) <==> BitSet(ids, id, k)
    }

    ghost predicate Valid()
      reads this, directory
    {
      && directory.Length == Pow2(logNumBuckets)
      && (forall id :: BucketOf(id) < directory.Length)
      && (forall id, k {:trigger LaneOk(directory[..], ids, id, k)} :: 0 <= k < 8 ==> LaneOk(directory[..], ids, id, k))
    }

    /** Nothing is set in an empty bucket. */
    lemma EmptyLane(id: nat, k: nat)
      requires k < 8
      ensures !HasBit(EMPTY[k], MaskOf(id)[k])
    {
      hide LaneMask, Hash, Pow2;
      var x := LaneShift(REHASH[k], LowHash(id));
      OneBit(x);
    }

    method Clear()
      requires Valid()
      modifies this`ids, directory
      ensures Valid() && ids == {}
    {
      var i := 0;
      while i < directory.Length
        invariant i <= directory.Length
        invariant forall j :: 0 <= j < i ==> directory[j] == EMPTY
      {
        directory[i] := EMPTY;
        i := i + 1;
      }
      ids := {};
      NothingSet();
    }

    method Insert(id: nat)
      requires Valid()
      modifies this`ids, directory
      ensures Valid() && ids == old(ids) + {id}
    {
      hide MaskOf, BucketOf;
      var b, mask := BucketOf(id), MaskOf(id);
      ghost var dir := directory[..];
      directory[b] := Union(directory[b], mask);
      ids := ids + {id};
      assert directory[..] == dir[b := Union(dir[b], mask)];
      forall other, k {:trigger LaneOk(directory[..], ids, other, k)} | 0 <= k < 8
        ensures LaneOk(directory[..], ids, other, k)
      {
        assert LaneOk(dir, old(ids), other, k);
        InsertLane(dir, old(ids), id, other, k);
      }
    }

    lemma InsertLane(dir: seq<Lanes>, ids: set<nat>, id: nat, other: nat, k: nat)
      requires k < 8 && BucketOf(id) < |dir| && BucketOf(other) < |dir| && LaneOk(dir, ids, other, k)
      ensures LaneOk(dir[BucketOf(id) := Union(dir[BucketOf(id)], MaskOf(id))], ids + {id}, other, k)
    {
      hide MaskOf, BucketOf, BitSet, Union, HasBit, Or;
      MoreBits(ids, id, other, k);
      if BucketOf(other) == BucketOf(id) {
        LaneMore(dir[BucketOf(other)][k], other, id, k);
      }
    }

    lemma MoreBits(ids: set<nat>, id: nat, other: nat, k: nat)
      requires k < 8
      ensures BitSet(ids + {id}, other, k)
         <==> BitSet(ids, other, k) || (BucketOf(id) == BucketOf(other) && MaskOf(id)[k] == MaskOf(other)[k])
    {
      hide MaskOf, BucketOf;
      assert id in ids + {id};
    }

    lemma LaneMore(a: bv32, other: nat, id: nat, k: nat)
      requires k < 8
      ensures HasBit(Or(a, MaskOf(id)[k]), MaskOf(other)[k])
         <==> HasBit(a, MaskOf(other)[k]) || MaskOf(other)[k] == MaskOf(id)[k]
    {
      hide LaneMask, LowHash;
      var x := LaneShift(REHASH[k], LowHash(other));
      var y := LaneShift(REHASH[k], LowHash(id));
      LaneOr(a, x, y);
    }

    /** `find` is true for everything inserted, and otherwise only if the inserted ids of the
        same bucket have set all eight bits of the id between them. */
    method Find(id: nat) returns (r: bool)
      requires Valid()
      ensures id in ids ==> r
      ensures r <==> forall k {:trigger BitSet(ids, id, k)} :: 0 <= k < 8 ==> BitSet(ids, id, k)
    {
      hide MaskOf, BucketOf;
      r := Covers(directory[BucketOf(id)], MaskOf(id));
      LookUp(directory[..], id);
    }

    lemma LookUp(dir: seq<Lanes>, id: nat)
      requires BucketOf(id) < |dir|
      requires forall k {:trigger LaneOk(dir, ids, id, k)} :: 0 <= k < 8 ==> LaneOk(dir, ids, id, k)
      ensures Covers(dir[BucketOf(id)], MaskOf(id))
         <==> forall k {:trigger BitSet(ids, id, k)} :: 0 <= k < 8 ==> BitSet(ids, id, k)
      ensures id in ids ==> forall k {:trigger BitSet(ids, id, k)} :: 0 <= k < 8 ==> BitSet(ids, id, k)
    {
      hide MaskOf, BucketOf, HasBit;
      var bucket, mask := dir[BucketOf(id)], MaskOf(id);
      forall k | 0 <= k < 8
        ensures HasBit(bucket[k], mask[k]) <==> BitSet(ids, id, k)
      {
        assert LaneOk(dir, ids, id, k);
      }
      if forall k {:trigger BitSet(ids, id, k)} :: 0 <= k < 8 ==> BitSet(ids, id, k) {
        forall k | 0 <= k < 8
          ensures HasBit(bucket[k], mask[k])
        {
          assert BitSet(ids, id, k);
        }
      }
    }
  }

  lemma Pow2Shift(n: nat)
    requires n >= 5
    ensures Pow2(n) == 32 * Pow2(n - 5)
  {
    assert Pow2(n) == 2 * Pow2(n - 1) == 4 * Pow2(n - 2) == 8 * Pow2(n - 3) == 16 * Pow2(n - 4) == 32 * Pow2(n - 5);
  }

  lemma MaskBound(logNumBuckets: nat)
    ensures Pow2(if logNumBuckets < 32 then logNumBuckets else 32) <= Pow2(logNumBuckets)
  {
    Pow2Monotone(if logNumBuckets < 32 then logNumBuckets else 32, logNumBuckets);
  }

  /** From the threshold on, a filter made for the log size that an edge block passes fills
      its share of the block exactly, and the clamp to one bucket bit never applies. */
  lemma FilterFits(order: nat)
    requires order >= BLOOM_FILTER_THRESHOLD
    ensures LOG_BUCKET_BYTE_SIZE < order - BLOOM_FILTER_PORTION
    ensures Pow2(order - BLOOM_FILTER_PORTION) == FilterSize(order)
    ensures Pow2(order - BLOOM_FILTER_PORTION - LOG_BUCKET_BYTE_SIZE) * 32 == FilterSize(order)
  {
    FilterShare(order);
    Pow2Shift(order - BLOOM_FILTER_PORTION);
  }
}
