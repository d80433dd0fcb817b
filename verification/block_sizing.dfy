/** How large an edge block has to be: orders, the share of the Bloom filter, free space. */
module BlockSizing {
  const HEADER := 48
  const ENTRY := 24
  const BLOOM_FILTER_THRESHOLD := 10
  const BLOOM_FILTER_PORTION := 4

  function Pow2(n: nat): (p: nat)
    ensures 0 < p
  {
    if n == 0 then 1 else 2 * Pow2(n - 1)
  }

  lemma {:induction false} Pow2Monotone(a: nat, b: nat)
    requires a <= b
    ensures Pow2(a) <= Pow2(b)
    ensures a < b ==> 2 * Pow2(a) <= Pow2(b)
  {
    if a < b {
      Pow2Monotone(a, b - 1);
    }
  }

  /** Bitwise and. */
  function BitAnd(a: nat, b: nat): nat {
    if a == 0 || b == 0 then 0 else 2 * BitAnd(a / 2, b / 2) + if a % 2 == 1 && b % 2 == 1 then 1 else 0
  }

  /** size - 1 in 64 bits. */
  function Decrement(size: nat): nat {
    if size == 0 then 0xFFFF_FFFF_FFFF_FFFF else size - 1
  }

  lemma {:induction false} AndSelf(a: nat)
    ensures BitAnd(a, a) == a
  {
    if a > 0 {
      AndSelf(a / 2);
    }
  }

  /** The greatest n with Pow2(n) <= size. */
  function Log2(size: nat): (n: nat)
    requires 0 < size
    ensures Pow2(n) <= size < 2 * Pow2(n)
  {
    if size == 1 then 0 else 1 + Log2(size / 2)
  }

  /** The usual test for a power of two. */
  lemma {:induction false} PowerOfTwo(size: nat)
    requires 0 < size
    ensures BitAnd(size, size - 1) == 0 <==> size == Pow2(Log2(size))
  {
    if size > 1 {
      if size % 2 == 0 {
        PowerOfTwo(size / 2);
        assert (size - 1) / 2 == size / 2 - 1;
      } else {
        AndSelf(size / 2);
        assert (size - 1) / 2 == size / 2;
      }
    }
  }

  /** The least order of a block that holds `size` bytes. */
  ghost predicate LeastOrder(size: nat, order: nat) {
    size <= Pow2(order) && forall n: nat :: size <= Pow2(n) ==> order <= n
  }

  function Order(size: nat): (order: nat)
    ensures LeastOrder(size, order)
  {
    if size <= 1 then 0
    else
      var n := Log2(size);
      LeastOrderOf(size);
      if size == Pow2(n) then n else n + 1
  }

  lemma LeastOrderOf(size: nat)
    requires size > 1
    ensures LeastOrder(size, if size == Pow2(Log2(size)) then Log2(size) else Log2(size) + 1)
  {
    var n := Log2(size);
    forall m: nat | size <= Pow2(m)
      ensures n <= m && (size != Pow2(n) ==> n + 1 <= m)
    {
      if m < n {
        Pow2Monotone(m, n);
      }
    }
  }

  method SizeToOrder(size: nat) returns (order: nat)
    ensures order == Order(size)
  {
    order := if BitAnd(size, Decrement(size)) != 0 then 1 else 0;
    var s := size;
    ghost var steps: nat := 0;
    if size > 0 {
      PowerOfTwo(size);
    }
    ghost var start := order;
    while s > 1
      invariant order == start + steps && (size == 0 ==> s == 0 && steps == 0)
      invariant size > 0 ==> s > 0 && Log2(size) == steps + Log2(s)
    {
      order := order + 1;
      s := s / 2;
      steps := steps + 1;
    }
    assert Log2(1) == 0;
    assert size > 0 ==> Decrement(size) == size - 1;
    assert size > 1 ==> order == if size == Pow2(Log2(size)) then Log2(size) else Log2(size) + 1;
    assert size == 1 ==> Log2(size) == 0;
  }

  /** The bytes that the Bloom filter takes at the end of a block. */
  function FilterSize(order: nat): nat {
    if order < BLOOM_FILTER_THRESHOLD then 0 else Pow2(order) / Pow2(BLOOM_FILTER_PORTION)
  }

  lemma FilterShare(order: nat)
    requires order >= BLOOM_FILTER_PORTION
    ensures Pow2(order) == 16 * Pow2(order - BLOOM_FILTER_PORTION)
    ensures order >= BLOOM_FILTER_THRESHOLD ==> FilterSize(order) == Pow2(order - BLOOM_FILTER_PORTION)
  {
    assert Pow2(order) == 2 * Pow2(order - 1) == 4 * Pow2(order - 2) == 8 * Pow2(order - 3) == 16 * Pow2(order - 4);
    assert Pow2(BLOOM_FILTER_PORTION) == 16;
  }

  predicate HasSpace(order: nat, numEntries: nat, dataLength: nat, length: nat) {
    HEADER + (numEntries + 1) * ENTRY + dataLength + length + FilterSize(order) <= Pow2(order)
  }

  /** Two-stage order: the second stage makes room for the filter of the first. */
  function BlockOrder(size: nat): nat {
    var order := Order(size);
    var more := if order > BLOOM_FILTER_PORTION then Pow2(order - BLOOM_FILTER_PORTION) else 0;
    if order > BLOOM_FILTER_PORTION && size + more >= Pow2(BLOOM_FILTER_THRESHOLD) then Order(size + more) else order
  }

  lemma Powers()
    ensures Pow2(BLOOM_FILTER_THRESHOLD) == 1024 && Pow2(BLOOM_FILTER_PORTION) == 16 && Pow2(6) == 64 && Pow2(9) == 512
  {
  }

  lemma {:induction false} OrderMonotone(a: nat, b: nat)
    requires a <= b
    ensures Order(a) <= Order(b)
  {
    assert a <= Pow2(Order(b));
  }

  /** The second stage moves up by at most one order, whose filter then fits as well. */
  lemma SecondStage(size: nat, order: nat, more: nat)
    requires order == Order(size) > BLOOM_FILTER_PORTION && more == Pow2(order - BLOOM_FILTER_PORTION)
    ensures size + FilterSize(Order(size + more)) <= Pow2(Order(size + more))
  {
    hide Order, LeastOrder;
    var second := Order(size + more);
    FilterShare(order);
    OrderFacts(size, more, order, second);
    FilterShare(second);
  }

  lemma OrderFacts(size: nat, more: nat, order: nat, second: nat)
    requires order == Order(size) && second == Order(size + more) && more <= Pow2(order)
    ensures size <= Pow2(order) && size + more <= Pow2(second) && order <= second <= order + 1
    ensures Pow2(order + 1) == 2 * Pow2(order)
  {
    OrderMonotone(size, size + more);
    assert size + more <= Pow2(order + 1);
  }

  /** The chosen block always holds its content and the filter that comes with its order. */
  lemma BlockOrderSuffices(size: nat)
    ensures size + FilterSize(BlockOrder(size)) <= Pow2(BlockOrder(size))
  {
    hide Order;
    var order := Order(size);
    Powers();
    if order <= BLOOM_FILTER_PORTION {
    } else {
      var more := Pow2(order - BLOOM_FILTER_PORTION);
      FilterShare(order);
      if size + more >= 1024 {
        SecondStage(size, order, more);
      } else if order >= BLOOM_FILTER_THRESHOLD {
        Pow2Monotone(BLOOM_FILTER_THRESHOLD, order);
      }
    }
  }

  /** And no smaller block does: the second stage moves up only when it has to. */
  lemma BlockOrderLeast(size: nat, order: nat)
    requires size + FilterSize(order) <= Pow2(order)
    ensures BlockOrder(size) <= order
  {
    hide Order;
    var first := Order(size);
    assert first <= order;
    Powers();
    if first > BLOOM_FILTER_PORTION {
      var more := Pow2(first - BLOOM_FILTER_PORTION);
      FilterShare(first);
      if size + more >= 1024 {
        SecondStageLeast(size, order, first, more);
      }
    }
  }

  lemma SecondStageLeast(size: nat, order: nat, first: nat, more: nat)
    requires first == Order(size) > BLOOM_FILTER_PORTION && more == Pow2(first - BLOOM_FILTER_PORTION)
    requires size + FilterSize(order) <= Pow2(order) && size + more >= 1024
    ensures Order(size + more) <= order
  {
    hide Order;
    Powers();
    FilterShare(first);
    assert first <= order;
    if first < BLOOM_FILTER_THRESHOLD {
      Pow2Monotone(first, 9);
      assert false;
    } else if first == order {
      assert size + more <= Pow2(order);
    } else {
      Pow2Monotone(first + 1, order);
      assert size + more <= Pow2(first + 1);
    }
  }

  /** A block sized for `n` copied entries and one more has space for each of them in turn,
      and then for the one more: no append returns null. */
  lemma GrowthFits(n: nat, dataLength: nat, length: nat, k: nat, prefix: nat, next: nat)
    requires k <= n && prefix + next <= dataLength + length
    ensures HasSpace(BlockOrder(HEADER + (1 + n) * ENTRY + dataLength + length), k, prefix, next)
  {
    hide BlockOrder, FilterSize, Pow2;
    BlockOrderSuffices(HEADER + (1 + n) * ENTRY + dataLength + length);
  }

  lemma CompactionFits(n: nat, dataLength: nat, k: nat, prefix: nat, next: nat)
    requires k < n && prefix + next <= dataLength
    ensures HasSpace(BlockOrder(HEADER + n * ENTRY + dataLength), k, prefix, next)
  {
    hide BlockOrder, FilterSize, Pow2;
    BlockOrderSuffices(HEADER + n * ENTRY + dataLength);
  }
}
