/// What the sub-queues of explicit and implicit producers have in common (concurrentqueue.h,
/// ProducerBase and Block): indices, the blocks they fall in, and slots of circular indices.
///
/// A block number j stands for the indices [32 j, 32 j + 32).
module SubQueue {
  import opened Index
  import opened Wrappers

  type Thread = nat
  type Block = nat

  /// Where a run of indices from `k` stops: at the end of the block or of the operation.
  function StopIndex(k: nat, limit: nat): nat {
    var end := BlockBase(k) + BLOCK_SIZE;
    if CircularLessThan(Wrap(limit), Wrap(end)) then limit else end
  }

  function BlocksNeeded(tail: nat, count: nat, bulk: bool): nat {
    if bulk then BlockBaseDiff(tail, count) / BLOCK_SIZE
    else if Wrap(tail) % BLOCK_SIZE == 0 then 1 else 0
  }

  function FirstBase(tail: nat, bulk: bool): nat {
    if bulk then Wrap(BlockBase(Wrap(Wrap(tail) - 1)) + BLOCK_SIZE) else Wrap(tail)
  }

  function BlockAt(starts: seq<Block>, j: int): Block {
    if 0 <= j < |starts| then starts[j] else 0
  }

  /// Where the element with index k lives.
  function Home(starts: seq<Block>, k: nat): (Block, nat) {
    (BlockAt(starts, k / BLOCK_SIZE), k % BLOCK_SIZE)
  }

  /// The places of the elements with the indices from a to b, in order.
  function Homes(starts: seq<Block>, a: nat, b: nat): (places: seq<(Block, nat)>)
    ensures a <= b ==> |places| == b - a && forall i | 0 <= i < b - a :: places[i] == Home(starts, a + i)
  {
    if a < b then Homes(starts, a, b - 1) + [Home(starts, b - 1)] else []
  }

  lemma HomesEnds(starts: seq<Block>, a: nat, b: nat)
    requires a <= b
    ensures Homes(starts, a, a) == [] && Homes(starts, a, b + 1) == Homes(starts, a, b) + [Home(starts, b)]
  {}

  /// The slot of block number p in an index whose slot 0 is that of block number `origin`.
  function SlotOf(p: int, origin: int, size: nat): (slot: nat)
    ensures size > 0 ==> slot < size
  {
    if size > 0 then (p - origin) % size else 0
  }

  function CeilBlocks(n: nat): nat {
    (n + BLOCK_SIZE - 1) / BLOCK_SIZE
  }

  function LastBlock(starts: seq<Block>, c: nat): Option<Block> {
    if 0 < c <= |starts| then Some(starts[c - 1]) else None
  }

  lemma StopIndexIsMin(k: nat, limit: nat)
    requires k <= limit && limit - k < HALF
    ensures var end := k - k % BLOCK_SIZE + BLOCK_SIZE;
            StopIndex(k, limit) == if limit < end then limit else end
  {
    CircularLessThanIsLess(limit, k - k % BLOCK_SIZE + BLOCK_SIZE);
  }

  lemma SameBlock(begin: nat, i: nat)
    requires begin <= i < begin - begin % BLOCK_SIZE + BLOCK_SIZE
    ensures i / BLOCK_SIZE == begin / BLOCK_SIZE
    ensures i % BLOCK_SIZE == begin % BLOCK_SIZE + (i - begin)
  {}

  lemma NeedIsExact(tail: nat, count: nat, bulk: bool)
    requires count < HALF && (bulk || count == 1)
    ensures BlocksNeeded(tail, count, bulk) == CeilBlocks(tail + count) - CeilBlocks(tail)
  {
    hide BlockBaseDiff;
    if bulk {
      BlockBaseDiffCounts(tail, count);
    } else {
      WrapModulo(tail, BLOCK_SIZE);
      NeedForOne(tail);
    }
  }

  lemma NeedForOne(tail: nat)
    ensures CeilBlocks(tail + 1) == CeilBlocks(tail) + (if tail % BLOCK_SIZE == 0 then 1 else 0)
  {}

  lemma BaseIsExact(tail: nat, bulk: bool)
    requires bulk || tail % BLOCK_SIZE == 0
    ensures FirstBase(tail, bulk) == Wrap(CeilBlocks(tail) * BLOCK_SIZE)
  {
    if bulk {
      WrapDifference(tail, 1);
      BlockBaseOfWord(tail - 1);
      LastBase(tail);
      WrapDifference(CeilBlocks(tail) * BLOCK_SIZE - BLOCK_SIZE, 0 - BLOCK_SIZE);
    }
  }

  lemma LastBase(tail: nat)
    ensures (tail - 1) - (tail - 1) % BLOCK_SIZE == CeilBlocks(tail) * BLOCK_SIZE - BLOCK_SIZE
  {}

  lemma NeedNone(tail: nat)
    requires tail % BLOCK_SIZE != 0
    ensures BlocksNeeded(tail, 1, false) == 0
  {
    WrapModulo(tail, BLOCK_SIZE);
  }

  lemma SlotsDiffer(p: int, q: int, origin: int, size: nat)
    requires size > 0 && p < q < p + size
    ensures SlotOf(p, origin, size) != SlotOf(q, origin, size)
  {
    ModuloDistinct(p - origin, q - origin, size);
  }

  lemma NextFront(front: nat, c: nat, origin: nat, size: nat)
    requires size > 0 && PowerOfTwo(size) && size <= HALF && front == SlotOf(c - 1, origin, size)
    ensures Wrap(front + 1) % size == SlotOf(c, origin, size)
  {
    PowersDivideWord(size);
    WrapModulo(front + 1, size);
    ModuloTwice(c - 1 - origin, size);
    ModuloSum(c - 1 - origin, 1, front, 1, size);
  }

  lemma PreviousFront(front: nat, c: nat, origin: nat, size: nat)
    requires size > 0 && PowerOfTwo(size) && size <= HALF && front == SlotOf(c, origin, size)
    ensures Wrap(front - 1) % size == SlotOf(c - 1, origin, size)
  {
    PowersDivideWord(size);
    WrapModulo(front - 1, size);
    ModuloTwice(c - origin, size);
    ModuloSum(c - origin, -1, front, -1, size);
  }

  lemma SlotZero(size: nat)
    requires size > 0
    ensures SlotOf(0, 0, size) == 0
  {}
}
