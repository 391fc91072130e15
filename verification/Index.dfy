/// Unsigned 64-bit index arithmetic (concurrentqueue.h, `index_t` and `size_t`).
///
/// Counters that only ever grow are modelled as natural numbers together with the 64-bit word
/// the program keeps of them; the lemmas say when a decision taken on the words is the decision
/// the naturals call for.
module Index {

  const WORD: int := 0x1_0000_0000_0000_0000
  const HALF: int := 0x8000_0000_0000_0000

  const BLOCK_SIZE: nat := 32

  /// The 64-bit word of an integer.
  function Wrap(x: int): nat {
    x % WORD
  }

  predicate CircularLessThan(a: nat, b: nat) {
    Wrap(a - b) > HALF
  }

  /// On counters less than 2^63 apart, `circular_less_than` is `<`.
  lemma CircularLessThanIsLess(a: int, b: int)
    requires -HALF < a - b < HALF
    ensures CircularLessThan(Wrap(a), Wrap(b)) <==> a < b
  {
    WrapDifference(a, b);
  }

  /// Subtracting words is the same as taking the word of the difference.
  lemma WrapDifference(a: int, b: int)
    ensures Wrap(Wrap(a) - Wrap(b)) == Wrap(a - b)
    ensures Wrap(Wrap(a) - b) == Wrap(a - b)
  {
    var k, l := a / WORD, b / WORD;
    assert Wrap(a) == a - k * WORD && Wrap(b) == b - l * WORD;
    WrapShift(a - b, l - k);
    WrapShift(a - b, -k);
  }

  lemma WrapShift(x: int, k: int)
    ensures Wrap(x + k * WORD) == Wrap(x)
  {
    var q := x / WORD;
    assert x + k * WORD == (q + k) * WORD + x % WORD;
  }

  lemma WrapSmall(x: int)
    requires 0 <= x < WORD
    ensures Wrap(x) == x
  {}

  // ------------------------------------------------- circular block indices

  /// index & ~(BLOCK_SIZE - 1)
  function BlockBase(index: nat): nat {
    index - index % BLOCK_SIZE
  }

  function ToSigned(word: nat): int {
    if word >= HALF then word - WORD else word
  }

  /// Signed division as C++ does it: towards zero.
  function Truncate(a: int, b: nat): int
    requires b > 0
  {
    if a >= 0 then a / b else -(-a / b)
  }

  /// The signed number of blocks from the block that starts at `headBase` to the one of `index`.
  function BlockOffset(index: nat, headBase: nat): int {
    Truncate(ToSigned(Wrap(BlockBase(index) - headBase)), BLOCK_SIZE)
  }

  /// The slot of a circular index of `size` entries (a power of two) `offset` places from `front`.
  function SlotFrom(front: nat, offset: int, size: nat): nat
    requires size > 0
  {
    Wrap(front + Wrap(offset)) % size
  }

  ghost predicate PowerOfTwo(n: nat) {
    n == 1 || (n > 1 && n % 2 == 0 && PowerOfTwo(n / 2))
  }

  lemma {:induction false} PowersDivide(n: nat, m: nat)
    requires PowerOfTwo(n) && PowerOfTwo(m) && n <= m
    ensures m % n == 0
  {
    if n > 1 {
      PowersDivide(n / 2, m / 2);
      var q := (m / 2) / (n / 2);
      assert m / 2 == q * (n / 2);
      assert m == q * n;
      ModuloMultiple(0, q, n);
    }
  }

  lemma {:induction false} PowersMultiply(n: nat, m: nat)
    requires PowerOfTwo(n) && PowerOfTwo(m)
    ensures PowerOfTwo(n * m)
  {
    if n > 1 {
      PowersMultiply(n / 2, m);
      assert n * m == 2 * ((n / 2) * m);
      assert m >= 1 && n * m >= n;
    }
  }

  /// The size of a circular index divides 2^64, so that indices may wrap around.
  lemma PowersDivideWord(n: nat)
    requires PowerOfTwo(n) && n <= HALF
    ensures WORD % n == 0
  {
    assert PowerOfTwo(4) by { assert PowerOfTwo(2); }
    assert PowerOfTwo(16) by { PowersMultiply(4, 4); }
    assert PowerOfTwo(256) by { PowersMultiply(16, 16); }
    assert PowerOfTwo(0x1_0000) by { PowersMultiply(256, 256); }
    assert PowerOfTwo(0x1_0000_0000) by { PowersMultiply(0x1_0000, 0x1_0000); }
    assert PowerOfTwo(WORD) by { PowersMultiply(0x1_0000_0000, 0x1_0000_0000); }
    PowersDivide(n, WORD);
  }

  lemma ModuloMultiple(x: int, k: int, n: nat)
    requires n > 0
    ensures (x + k * n) % n == x % n
  {
    var q := x / n;
    assert x + k * n == (q + k) * n + x % n;
    ModuloUnique(x + k * n, q + k, x % n, n);
  }

  lemma ModuloUnique(x: int, q: int, r: int, n: nat)
    requires n > 0 && x == q * n + r && 0 <= r < n
    ensures x % n == r && x / n == q
  {
    var d := x / n - q;
    assert x == (x / n) * n + x % n;
    assert d * n == r - x % n;
    assert d >= 1 ==> d * n >= n;
    assert d <= -1 ==> d * n <= 0 - n;
  }

  /// Taking words first does not disturb a circular slot.
  lemma WrapModulo(x: int, n: nat)
    requires n > 0 && WORD % n == 0
    ensures Wrap(x) % n == x % n
  {
    var q, k := x / WORD, WORD / n;
    assert WORD == k * n;
    assert x == Wrap(x) + q * WORD;
    assert q * WORD == (q * k) * n;
    ModuloMultiple(Wrap(x), q * k, n);
  }

  lemma BlockBaseOfWord(index: int)
    ensures BlockBase(Wrap(index)) == Wrap(index - index % BLOCK_SIZE)
  {
    WrapModulo(index, BLOCK_SIZE);
    var r := index % BLOCK_SIZE;
    assert Wrap(index) % BLOCK_SIZE == r;
    WrapDifference(index, r);
    assert 0 <= Wrap(index) - r < WORD;
  }

  lemma OffsetIsExact(index: nat, j: nat, p: nat)
    requires j == index / BLOCK_SIZE && -HALF < (j - p) * BLOCK_SIZE < HALF
    ensures BlockOffset(Wrap(index), Wrap(p * BLOCK_SIZE)) == j - p
  {
    BlockBaseOfWord(index);
    assert index - index % BLOCK_SIZE == j * BLOCK_SIZE;
    WrapDifference(j * BLOCK_SIZE, p * BLOCK_SIZE);
    SignedOfWord((j - p) * BLOCK_SIZE);
  }

  lemma SignedOfWord(d: int)
    requires -HALF < d < HALF
    ensures ToSigned(Wrap(d)) == d
  {}

  /// However the counters have wrapped, the signed offset from the block at position `p` leads
  /// to the slot of the block at position `j`, as long as the two are less than `size` apart.
  lemma LookupIsExact(index: nat, j: nat, p: nat, origin: nat, front: nat, size: nat)
    requires j == index / BLOCK_SIZE && j < p + size && p < j + size
    requires size > 0 && WORD % size == 0 && size * BLOCK_SIZE <= HALF
    requires front == (p - origin) % size
    ensures SlotFrom(front, BlockOffset(Wrap(index), Wrap(p * BLOCK_SIZE)), size) == (j - origin) % size
  {
    OffsetIsExact(index, j, p);
    SlotIsExact(front, j - p, p - origin, size);
  }

  lemma SlotIsExact(front: nat, offset: int, from: int, size: nat)
    requires size > 0 && WORD % size == 0 && front == from % size
    ensures SlotFrom(front, offset, size) == (from + offset) % size
  {
    WrapModulo(offset, size);
    WrapModulo(front + Wrap(offset), size);
    ModuloTwice(from, size);
    ModuloSum(from, offset, front, Wrap(offset), size);
  }

  lemma ModuloTwice(x: int, n: nat)
    requires n > 0
    ensures (x % n) % n == x % n
  {}

  /// Sums of numbers that are equal modulo n are equal modulo n.
  lemma ModuloSum(a: int, b: int, a': int, b': int, n: nat)
    requires n > 0 && a' % n == a % n && b' % n == b % n
    ensures (a' + b') % n == (a + b) % n
  {
    var k, l := a' / n - a / n, b' / n - b / n;
    assert a' == a + k * n && b' == b + l * n;
    assert a' + b' == (a + b) + (k + l) * n;
    ModuloMultiple(a + b, k + l, n);
  }

  // ------------------------------------------------------- block boundaries

  /// The number of blocks that start at an index in [start, start + count).
  function BlockStarts(start: nat, count: nat): int {
    (start + count + BLOCK_SIZE - 1) / BLOCK_SIZE - (start + BLOCK_SIZE - 1) / BLOCK_SIZE
  }

  /// `blockBaseDiff` of the bulk operations, as computed on words.
  function BlockBaseDiff(start: nat, count: nat): nat {
    Wrap(BlockBase(Wrap(Wrap(start) + count - 1)) - BlockBase(Wrap(Wrap(start) - 1)))
  }

  /// It is BLOCK_SIZE for each block that starts in the range, even where start - 1 wraps around.
  lemma BlockBaseDiffCounts(start: nat, count: nat)
    requires count <= HALF
    ensures BlockBaseDiff(start, count) == BLOCK_SIZE * BlockStarts(start, count)
  {
    var a, b := start + count - 1, start - 1;
    WrapDifference(start, 1);
    WrapDifference(start, -(count - 1));
    assert Wrap(Wrap(start) + count - 1) == Wrap(a) && Wrap(Wrap(start) - 1) == Wrap(b);
    LastBases(start, count);
    BaseDifference(a, b);
  }

  lemma BaseDifference(a: int, b: int)
    requires 0 <= (a - a % BLOCK_SIZE) - (b - b % BLOCK_SIZE) < WORD
    ensures Wrap(BlockBase(Wrap(a)) - BlockBase(Wrap(b))) == (a - a % BLOCK_SIZE) - (b - b % BLOCK_SIZE)
  {
    BlockBaseOfWord(a);
    BlockBaseOfWord(b);
    WrapDifference(a - a % BLOCK_SIZE, b - b % BLOCK_SIZE);
    WrapSmall((a - a % BLOCK_SIZE) - (b - b % BLOCK_SIZE));
  }

  lemma LastBases(start: nat, count: nat)
    requires count <= HALF
    ensures var a, b := start + count - 1, start - 1;
            0 <= (a - a % BLOCK_SIZE) - (b - b % BLOCK_SIZE) == BLOCK_SIZE * BlockStarts(start, count) < WORD
  {}

  /// What BlockStarts counts: one more index adds one exactly when a block starts there.
  lemma BlockStartsStep(start: nat, count: nat)
    ensures BlockStarts(start, 0) == 0
    ensures BlockStarts(start, count + 1) ==
              BlockStarts(start, count) + (if (start + count) % BLOCK_SIZE == 0 then 1 else 0)
  {}

  /// Two places less than n apart are different slots.
  lemma ModuloDistinct(x: int, y: int, n: nat)
    requires n > 0 && x < y < x + n
    ensures x % n != y % n
  {
    var d := y / n - x / n;
    assert x == (x / n) * n + x % n && y == (y / n) * n + y % n;
    assert y - x == d * n + (y % n - x % n);
    assert d >= 1 ==> d * n >= n;
    assert d <= 0 ==> d * n <= 0;
  }
}
