/// The sub-queue of an explicit producer (concurrentqueue.h, ExplicitProducer): a ring of
/// blocks, a circular index of them that is replaced by one of twice the size when it is full,
/// one producer and any number of consumers, one atomic operation per step.
///
/// A block number j stands for the indices [32 j, 32 j + 32).  `starts`, `values`, `got`, `done`
/// and the fields of headers and program counters marked so are history variables.
module ExplicitProducer {
  import Claims
  import opened Index
  import opened SubQueue
  import opened Wrappers

  datatype Entry = Entry(base: nat, block: Block)

  datatype Header = Header(
    size: nat,
    front: nat,
    entries: seq<Entry>,
    // history, in block numbers: the one at slot 0, the oldest and the newest valid ones
    // (exclusive), and the one after `front`
    origin: nat,
    low: nat,
    written: nat,
    shown: nat)

  /// The local variables of an enqueue in progress; `enqueue` is the case of one value, not bulk.
  datatype Op<T> = Op(
    values: seq<T>,
    bulk: bool,
    startBlock: Option<Block>,     // tailBlock at the start
    startSlotsUsed: nat,           // pr_blockIndexSlotsUsed at the start
    first: Option<Block>,          // firstAllocatedBlock
    base: nat,                     // the word of the next block's base
    need: nat,                     // how many more blocks are needed
    c0: nat,                       // history: block numbers in use at the start
    pooled: bool)                  // no more blocks are taken from ahead once one has come from the pool

  datatype ProducerPC<T> =
    | Resting
    | Choose(op: Op<T>)
    | Scan(op: Op<T>, i: nat)
    | CheckFull(op: Op<T>)
    | Grow(op: Op<T>)
    | Requisition(op: Op<T>)
    | WriteBase(op: Op<T>)
    | WriteBlock(op: Op<T>)
    | ResetBlocks(op: Op<T>, block: Block, r: nat)                    // r: its number (history)
    | StoreFront(op: Op<T>)
    | Construct(op: Op<T>, k: nat, stop: nat, end: Option<Block>, j: nat)  // j: number of tailBlock (history)
    | StoreTail(op: Op<T>)

  datatype ConsumerPC =
    | Idle
    | LoadHeader(first: nat, n: nat)
    | LoadFront(first: nat, n: nat, h: nat)
    | ReadBase(first: nat, n: nat, h: nat, front: nat, p: nat)         // p: number at front (history)
    | ReadBlock(first: nat, n: nat, h: nat, slot: nat, i: nat)
    | MoveOut(first: nat, n: nat, h: nat, slot: nat, block: Block, begin: nat, i: nat)
    | SetFlag(first: nat, n: nat, h: nat, slot: nat, block: Block, begin: nat, end: nat, m: nat)

  /// The producer's own variables, and the memory only it writes.
  datatype Ring<T> = Ring(
    tailBlock: Option<Block>,
    slotsUsed: nat,
    size: nat,
    front: nat,
    pc: ProducerPC<T>,
    headers: seq<Header>,                 // all indices so far; the last one is the current one
    next: map<Block, Block>,
    starts: seq<Block>)                   // history: the block that got each number
  {
    function At(p: ProducerPC<T>): Ring<T> { this.(pc := p) }
    function Next(b: Block): Block { NextOf(next, b) }
    function Tail(): Block { if tailBlock.Some? then tailBlock.value else 0 }

    /// The number of the oldest block in the ring.
    function Oldest(): int { |starts| - slotsUsed }

    function Current(): Header
      requires headers != []
    { headers[|headers| - 1] }

    function SetCurrent(h: Header): Ring<T>
      requires headers != []
    { this.(headers := headers[|headers| - 1 := h]) }
  }

  datatype State<T> = State(
    claims: Claims.State,
    ring: Ring<T>,
    flags: map<Block, seq<bool>>,
    elems: map<(Block, nat), T>,          // constructed elements
    cpc: map<Thread, ConsumerPC>,
    // history
    values: seq<T>,                       // every value constructed so far, by index
    got: map<nat, T>,                     // what the consumer of an index got
    done: set<nat>)                       // the indices whose flag has been set
  {
    function Cpc(t: Thread): ConsumerPC { if t in cpc then cpc[t] else Idle }
    function Goto(t: Thread, p: ConsumerPC): State<T> { this.(cpc := cpc[t := p]) }
  }

  function NextOf(next: map<Block, Block>, b: Block): Block {
    if b in next then next[b] else 0
  }

  function FlagsOf(flags: map<Block, seq<bool>>, b: Block): (f: seq<bool>)
    ensures |f| == BLOCK_SIZE
  {
    if b in flags && |flags[b]| == BLOCK_SIZE then flags[b] else AllFlags(false)
  }

  function AllFlags(v: bool): seq<bool> {
    seq(BLOCK_SIZE, _ => v)
  }

  datatype Request<T> =
    | Enqueue(values: seq<T>, bulk: bool)
    | Dequeue(max: nat)
    | Granted(block: Block)      // memory for an index or a block was available
    | Denied
    | Go

  // --------------------------------------------------- steps of the producer

  function Begin<T>(r: Ring<T>, tail: nat, values: seq<T>, bulk: bool): ProducerPC<T> {
    Choose(Op(values, bulk, r.tailBlock, r.slotsUsed, None, FirstBase(tail, bulk), BlocksNeeded(tail, |values|, bulk),
        |r.starts|, false))
  }

  /// Block `b`, next to the tail block in the ring, becomes the tail block.
  function TakeBlock<T>(r: Ring<T>, op: Op<T>, b: Block): Ring<T> {
    var r1 := r.(tailBlock := Some(b), starts := r.starts + [b])
               .At(WriteBase(op.(first := if op.first.None? then Some(b) else op.first)));
    if r.headers == [] then r1
    else r1.SetCurrent(Retire(r.Current(), |r.starts| + 1))
  }

  /// History: entering the next of `c` blocks will overwrite the entry of the block `size` before it.
  function Retire(h: Header, c: nat): Header {
    h.(low := if h.low + h.size < c then c - h.size else h.low)
  }

  function LinkBlock<T>(r: Ring<T>, b: Block): Ring<T> {
    r.(next := if r.tailBlock.None? then r.next[b := b] else r.next[b := r.Next(r.Tail())][r.Tail() := b],
       slotsUsed := r.slotsUsed + 1)
  }

  /// The entries of the old index, oldest first, and room for as many again.
  function GrownEntries(old_: seq<Entry>, front: nat, used: nat): seq<Entry> {
    seq(2 * |old_|, i requires i >= 0 =>
      if i < used && |old_| > 0 then old_[(front - used + i) % |old_|] else Entry(0, 0))
  }

  function GrowIndex<T>(r: Ring<T>, exposed: nat): Ring<T> {
    var old_ := if r.headers == [] then seq(r.size, _ => Entry(0, 0)) else r.Current().entries;
    var origin := if r.slotsUsed <= |r.starts| then |r.starts| - r.slotsUsed else 0;
    r.(headers := r.headers + [Header(2 * r.size, Wrap(exposed - 1), GrownEntries(old_, r.front, r.slotsUsed),
                                      origin, origin, |r.starts|, origin + exposed)],
       size := 2 * r.size,
       front := r.slotsUsed)
  }

  function BeginConstruct<T>(r: Ring<T>, tail: nat, op: Op<T>): Ring<T> {
    r.(tailBlock := if Wrap(tail) % BLOCK_SIZE == 0 && op.first.Some? then op.first else op.startBlock)
     .At(Construct(op, tail, StopIndex(tail, tail + |op.values|), r.tailBlock,
                   if tail % BLOCK_SIZE == 0 && op.first.None? && tail > 0
                   then tail / BLOCK_SIZE - 1 else tail / BLOCK_SIZE))
  }

  /// One step of the producer that writes nothing but its own memory; `head` is the value of the
  /// head index and `empty` the flags of the block after the tail block.  An allocation failure
  /// inside a bulk enqueue is not modelled: the producer then stays where it is.
  function RingStep<T>(r: Ring<T>, tail: nat, head: nat, empty: seq<bool>, q: Request<T>): Ring<T>
    requires |empty| == BLOCK_SIZE
  {
    match r.pc
    case Resting =>
      if q.Enqueue? && (q.bulk || |q.values| == 1) && |q.values| < HALF
      then r.At(Begin(r, tail, q.values, q.bulk)) else r
    case Choose(op) =>
      if op.need == 0 then
        (if op.first.None? then BeginConstruct(r, tail, op) else r.At(ResetBlocks(op, op.first.value, op.c0)))
      else if !op.pooled && r.tailBlock.Some? && Some(r.Next(r.Tail())) != op.first then r.At(Scan(op, 0))
      else r.At(CheckFull(op))
    case Scan(op, i) =>
      if i >= BLOCK_SIZE then TakeBlock(r, op, r.Next(r.Tail()))
      else if empty[i] then r.At(Scan(op, i + 1))
      else r.At(CheckFull(op))
    case CheckFull(op) =>
      if !CircularLessThan(Wrap(head), Wrap(op.base + BLOCK_SIZE)) then (if op.bulk then r else r.At(Resting))
      else if r.headers == [] || r.slotsUsed == r.size then r.At(Grow(op))
      else r.At(Requisition(op))
    case Grow(op) =>
      // an index of more than 2^58 entries cannot be allocated
      if q.Granted? && 2 * r.size * BLOCK_SIZE <= HALF
      then GrowIndex(r, if op.bulk then op.startSlotsUsed else r.slotsUsed).At(Requisition(op))
      else if op.bulk then r else r.At(Resting)
    case Requisition(op) =>
      if q.Granted? then
        (if q.block in r.starts then r else TakeBlock(LinkBlock(r, q.block), op.(pooled := true), q.block))
      else if op.bulk then r else r.At(Resting)
    case WriteBase(op) =>
      if r.headers == [] || r.front >= |r.Current().entries| then r else
      var h := r.Current();
      r.SetCurrent(h.(entries := h.entries[r.front := h.entries[r.front].(base := op.base)])).At(WriteBlock(op))
    case WriteBlock(op) =>
      if r.headers == [] || r.front >= |r.Current().entries| || r.size == 0 || op.need == 0 then r else
      var h := r.Current();
      var op' := op.(base := Wrap(op.base + BLOCK_SIZE), need := op.need - 1);
      r.SetCurrent(h.(entries := h.entries[r.front := h.entries[r.front].(block := r.Tail())],
          written := h.written + 1))
       .(front := Wrap(r.front + 1) % r.size)
       .At(if op.bulk then Choose(op') else StoreFront(op'))
    case ResetBlocks(op, b, n) =>
      r.At(if r.tailBlock == Some(b) then StoreFront(op) else ResetBlocks(op, r.Next(b), n + 1))
    case StoreFront(op) =>
      if r.headers == [] || r.size == 0 then r else
      BeginConstruct(r.SetCurrent(r.Current().(front := Wrap(r.front - 1) % r.size, shown := r.Current().written)),
          tail, op)
    case Construct(op, k, stop, end, j) =>
      if k != stop then r.At(Construct(op, k + 1, stop, end, j))
      else if r.tailBlock == end then r.At(StoreTail(op))
      else r.(tailBlock := Some(r.Next(r.Tail()))).At(Construct(op, k, StopIndex(k, tail + |op.values|), end, j + 1))
    case StoreTail(op) => r.At(Resting)
  }

  /// The flags the step resets or, for a block fresh from the pool, sets.
  function StepFlags<T>(r: Ring<T>, flags: map<Block, seq<bool>>, q: Request<T>): map<Block, seq<bool>> {
    match r.pc
    case Scan(op, i) => if i >= BLOCK_SIZE && !op.bulk then flags[r.Next(r.Tail()) := AllFlags(false)] else flags
    case Requisition(op) => if q.Granted? && q.block !in r.starts then flags[q.block := AllFlags(op.bulk)] else flags
    case ResetBlocks(_, b, _) => flags[b := AllFlags(false)]
    case _ => flags
  }

  /// One step of the producer.
  function ProducerStep<T>(s: State<T>, q: Request<T>): State<T> {
    var r := s.ring;
    var tail := s.claims.tail;
    var s1 := s.(ring := RingStep(r, tail, s.claims.head, FlagsOf(s.flags, r.Next(r.Tail())), q),
                 flags := StepFlags(r, s.flags, q));
    match r.pc
    case Construct(op, k, stop, end, j) =>
      if k != stop && tail <= k < tail + |op.values| then
        var v := op.values[k - tail];
        s1.(elems := s.elems[(r.Tail(), k % BLOCK_SIZE) := v], values := s.values + [v])
      else s1
    case StoreTail(op) => s1.(claims := s.claims.(tail := tail + |op.values|))
    case _ => s1
  }

  // -------------------------------------------------- steps of the consumers

  /// The claim protocol takes its own steps until indices have been added to `head`.
  function ClaimStep<T>(s: State<T>, t: Thread, q: Request<T>): State<T>
    requires t in s.claims.pc
  {
    var p := s.claims.pc[t];
    var claims := Claims.Step(s.claims, t, if q.Dequeue? then Claims.Dequeue(q.max) else Claims.Go);
    var s1 := s.(claims := claims);
    if p.Advance? && p.granted > 0 then s1.Goto(t, LoadHeader(s.claims.head, p.granted)) else s1
  }

  function ConsumerStep<T>(s: State<T>, t: Thread, q: Request<T>): State<T>
    requires t in s.claims.pc
  {
    match s.Cpc(t)
    case Idle => ClaimStep(s, t, q)
    case LoadHeader(first, n) =>
      if s.ring.headers == [] then s else s.Goto(t, LoadFront(first, n, |s.ring.headers| - 1))
    case LoadFront(first, n, h) =>
      if h >= |s.ring.headers| then s else
      s.Goto(t, ReadBase(first, n, h, s.ring.headers[h].front,
                         if s.ring.headers[h].shown > 0 then s.ring.headers[h].shown - 1 else 0))
    case ReadBase(first, n, h, front, p) =>
      if h >= |s.ring.headers| || front >= |s.ring.headers[h].entries| || s.ring.headers[h].size == 0 then s else
      var offset := BlockOffset(Wrap(first), s.ring.headers[h].entries[front].base);
      s.Goto(t, ReadBlock(first, n, h, SlotFrom(front, offset, s.ring.headers[h].size), first))
    case ReadBlock(first, n, h, slot, i) =>
      if h >= |s.ring.headers| || slot >= |s.ring.headers[h].entries| then s else
      s.Goto(t, MoveOut(first, n, h, slot, s.ring.headers[h].entries[slot].block, i, i))
    case MoveOut(first, n, h, slot, b, begin, i) =>
      var end := StopIndex(begin, first + n);
      if i == end then s.Goto(t, SetFlag(first, n, h, slot, b, begin, end, 0))
      else if (b, i % BLOCK_SIZE) in s.elems then
        s.(got := s.got[i := s.elems[(b, i % BLOCK_SIZE)]], elems := s.elems - {(b, i % BLOCK_SIZE)})
         .Goto(t, NextElement(s.Cpc(t)))
      else s
    case SetFlag(first, n, h, slot, b, begin, end, m) =>
      if h >= |s.ring.headers| || s.ring.headers[h].size == 0 || begin >= end then s
      else if m == end - begin then
        s.Goto(t, if end == first + n then Idle
            else ReadBlock(first, n, h, Wrap(slot + 1) % s.ring.headers[h].size, end))
      else
        var i := FlagIndex(begin, end) + m;
        if 0 <= i < BLOCK_SIZE then
          s.(flags := s.flags[b := FlagsOf(s.flags, b)[i := true]], done := s.done + {FlaggedIndex(end, m)})
           .Goto(t, NextFlag(s.Cpc(t)))
        else s
  }

  function NextElement(p: ConsumerPC): ConsumerPC
    requires p.MoveOut?
  {
    MoveOut(p.first, p.n, p.h, p.slot, p.block, p.begin, p.i + 1)
  }

  function NextFlag(p: ConsumerPC): ConsumerPC
    requires p.SetFlag?
  {
    SetFlag(p.first, p.n, p.h, p.slot, p.block, p.begin, p.end, p.m + 1)
  }

  /// The first flag of the elements [begin, end) of a block: flags run against the indices.
  function FlagIndex(begin: nat, end: nat): int {
    BLOCK_SIZE - 1 - begin % BLOCK_SIZE - (end - begin) + 1
  }

  /// History: the index whose flag is the m-th to be set.
  function FlaggedIndex(end: nat, m: nat): nat {
    if m < end then end - 1 - m else 0
  }

  // ------------------------------------------------------------ invariant

  function FlagAt(flags: map<Block, seq<bool>>, starts: seq<Block>, k: nat): bool {
    FlagsOf(flags, BlockAt(starts, k / BLOCK_SIZE))[BLOCK_SIZE - 1 - k % BLOCK_SIZE]
  }

  function EntryAt(h: Header, p: int): Entry {
    if h.size > 0 && |h.entries| == h.size then h.entries[SlotOf(p, h.origin, h.size)] else Entry(0, 0)
  }

  /// The last `used` blocks taken into use are distinct and linked in a ring, in order.
  ghost predicate RingOk(starts: seq<Block>, used: nat, next: map<Block, Block>) {
    var c := |starts|;
    && used <= c && (c > 0 ==> used > 0)
    && (forall i, j | c - used <= i < j < c :: BlockAt(starts, i) != BlockAt(starts, j))
    && (forall j {:trigger NextOf(next, BlockAt(starts, j))} | c - used <= j < c ::
          NextOf(next, BlockAt(starts, j)) == BlockAt(starts, if j + 1 < c then j + 1 else c - used))
  }

  /// The valid entries of an index name the blocks that start at their bases.
  ghost predicate HeaderOk(h: Header, starts: seq<Block>) {
    && h.size > 0 && |h.entries| == h.size && PowerOfTwo(h.size) && h.size * BLOCK_SIZE <= HALF
    && h.origin <= h.low <= h.written <= |starts| && h.shown <= h.written <= h.low + h.size
    && (h.origin < h.shown ==> h.front == SlotOf(h.shown - 1, h.origin, h.size))
    && (forall p | h.low <= p < h.written :: EntryAt(h, p) == Entry(Wrap(p * BLOCK_SIZE), BlockAt(starts, p)))
  }

  ghost predicate HeadersOk(headers: seq<Header>, starts: seq<Block>) {
    forall h <- headers :: HeaderOk(h, starts)
  }

  /// A flag is set when its element is gone; the flags of blocks from `upto` on are still all
  /// set, as they were when an unfinished bulk enqueue took the blocks.
  ghost predicate FlagsOk(flags: map<Block, seq<bool>>, starts: seq<Block>, lo: int, upto: nat, done: set<nat>) {
    forall k: nat | lo <= k / BLOCK_SIZE < |starts| ::
      FlagAt(flags, starts, k) <==> k in done || upto <= k / BLOCK_SIZE
  }

  /// Constructed elements: exactly the values enqueued and not yet moved out, each in its place.
  ghost predicate ElemsOk<T>(elems: map<(Block, nat), T>, starts: seq<Block>, lo: int, values: seq<T>,
                             got: map<nat, T>) {
    && (forall x <- elems :: x.1 < BLOCK_SIZE && exists j :: lo <= j < |starts| && BlockAt(starts, j) == x.0)
    && (forall k: nat | lo <= k / BLOCK_SIZE < |starts| && k < |values| && k !in got ::
          Home(starts, k) in elems && elems[Home(starts, k)] == values[k])
    && (forall k: nat | lo <= k / BLOCK_SIZE < |starts| && (k >= |values| || k in got) ::
          Home(starts, k) !in elems)
  }

  /// Consumers got what was enqueued, below the head only, and the blocks that left the ring are done.
  ghost predicate GotOk<T>(got: map<nat, T>, done: set<nat>, head: nat, values: seq<T>, lo: int) {
    && head <= |values|
    && (forall k <- got :: k < head && got[k] == values[k])
    && (forall k <- done :: k in got)
    && (forall k: nat | k / BLOCK_SIZE < lo :: k in done)
  }

  predicate InJob(p: ConsumerPC, k: nat) {
    !p.Idle? && p.first <= k < p.first + p.n
  }

  predicate Moved(p: ConsumerPC, k: nat) {
    match p
    case ReadBlock(_, _, _, _, i) => k < i
    case MoveOut(_, _, _, _, _, _, i) => k < i
    case SetFlag(_, _, _, _, _, _, end, _) => k < end
    case _ => false
  }

  predicate Flagged(p: ConsumerPC, k: nat) {
    match p
    case ReadBlock(_, _, _, _, i) => k < i
    case MoveOut(_, _, _, _, _, begin, _) => k < begin
    case SetFlag(_, _, _, _, _, begin, end, m) => k < begin || (end - m <= k < end)
    case _ => false
  }

  /// How far the consumer has come with the indices it claimed.
  ghost predicate ProgressOk<T>(p: ConsumerPC, got: map<nat, T>, done: set<nat>) {
    forall k: nat | InJob(p, k) :: (k in got <==> Moved(p, k)) && (k in done <==> Flagged(p, k))
  }

  /// Every claimed index that is not finished can still be looked up in the index `h`.
  ghost predicate Findable(p: ConsumerPC, h: Header) {
    forall k: nat | InJob(p, k) && !Flagged(p, k) :: h.low <= k / BLOCK_SIZE < h.written
  }

  /// The consumer is at the slot of the block of its indices from `begin` on.
  predicate AtSlot(p: ConsumerPC, h: Header, slot: nat, begin: nat)
    requires !p.Idle?
  {
    && p.first <= begin < p.first + p.n && (begin == p.first || begin % BLOCK_SIZE == 0)
    && h.size > 0 && slot == SlotOf(begin / BLOCK_SIZE, h.origin, h.size)
  }

  ghost predicate AtHeader(p: ConsumerPC, h: Header, starts: seq<Block>)
    requires !p.Idle? && !p.LoadHeader?
  {
    Findable(p, h) &&
    match p
    case LoadFront(first, n, _) => (first + n - 1) / BLOCK_SIZE < h.shown
    case ReadBase(first, n, _, front, at) =>
      (first + n - 1) / BLOCK_SIZE <= at < h.written && h.size > 0 && front == SlotOf(at, h.origin, h.size)
    case ReadBlock(_, _, _, slot, i) => AtSlot(p, h, slot, i)
    case MoveOut(first, n, _, slot, b, begin, i) =>
      AtSlot(p, h, slot, begin) && begin <= i <= StopIndex(begin, first + n) && b == BlockAt(starts, begin / BLOCK_SIZE)
    case SetFlag(first, n, _, slot, b, begin, end, m) =>
      AtSlot(p, h, slot, begin) && end == StopIndex(begin, first + n) && m <= end - begin
          && b == BlockAt(starts, begin / BLOCK_SIZE)
  }

  ghost predicate JobOk(p: ConsumerPC, headers: seq<Header>, starts: seq<Block>) {
    p.Idle? || (0 < p.n < HALF && (p.LoadHeader? || (p.h < |headers| && AtHeader(p, headers[p.h], starts))))
  }

  ghost predicate JobsOk<T>(s: State<T>) {
    && (forall t: Thread :: JobOk(s.Cpc(t), s.ring.headers, s.ring.starts))
    && (forall t: Thread :: ProgressOk(s.Cpc(t), s.got, s.done))
    && (forall t: Thread :: !s.Cpc(t).Idle? ==> s.Cpc(t).first + s.Cpc(t).n <= s.claims.head)
    && (forall t: Thread, u: Thread | t != u && !s.Cpc(t).Idle? && !s.Cpc(u).Idle? ::
          s.Cpc(t).first + s.Cpc(t).n <= s.Cpc(u).first || s.Cpc(u).first + s.Cpc(u).n <= s.Cpc(t).first)
    && (forall t: Thread :: !s.Cpc(t).Idle? ==> t in s.claims.pc && s.claims.pc[t].Idle?)
  }

  // -------------------------------------------------------- the producer

  /// The current index: it has room for the ring, lists it, and shows every published element.
  predicate CurrentOk<T>(r: Ring<T>, tail: nat, written: nat, shown: nat) {
    && r.size > 0 && r.slotsUsed <= r.size
    && (r.headers == [] ==> |r.starts| == 0)
    && (r.headers != [] ==>
          var h := r.Current();
          h.size == r.size && h.low <= r.Oldest() && h.written == written
          && r.front == SlotOf(written, h.origin, h.size)
          && h.shown >= shown)
    && tail <= shown * BLOCK_SIZE
  }

  ghost predicate OpOk<T>(r: Ring<T>, tail: nat, op: Op<T>, taken: nat) {
    && op.c0 == CeilBlocks(tail) && op.c0 <= |r.starts|
    && taken + op.need == CeilBlocks(tail + |op.values|)
    && op.startSlotsUsed <= r.slotsUsed && op.c0 - op.startSlotsUsed <= r.Oldest() <= op.c0
    && op.first == (if |r.starts| > op.c0 then Some(r.starts[op.c0]) else None)
    && op.startBlock == LastBlock(r.starts, op.c0)
    && (op.need > 0 ==> op.base == Wrap(taken * BLOCK_SIZE))
    && |op.values| < HALF && (!op.bulk ==> |op.values| == 1)
  }

  /// An enqueue still looking for blocks.
  ghost predicate Allocating<T>(r: Ring<T>, tail: nat, op: Op<T>) {
    && OpOk(r, tail, op, |r.starts|)
    && CurrentOk(r, tail, |r.starts|, op.c0)
    && r.tailBlock == LastBlock(r.starts, |r.starts|)
    && (!op.bulk ==> |r.starts| == op.c0)
  }

  /// An enqueue that has taken a block and is entering it in the index.
  ghost predicate Entering<T>(r: Ring<T>, tail: nat, op: Op<T>) {
    && |r.starts| > op.c0 && OpOk(r, tail, op, |r.starts| - 1) && op.need > 0
    && CurrentOk(r, tail, |r.starts| - 1, op.c0) && r.headers != [] && r.Current().low + r.size >= |r.starts|
    && r.tailBlock == LastBlock(r.starts, |r.starts|)
    && (!op.bulk ==> |r.starts| == op.c0 + 1)
  }

  ghost predicate Filling<T>(r: Ring<T>, tail: nat, op: Op<T>) {
    && OpOk(r, tail, op, |r.starts|) && op.need == 0
    && CurrentOk(r, tail, |r.starts|, |r.starts|)
  }

  ghost predicate RingPcOk<T>(r: Ring<T>, tail: nat) {
    match r.pc
    case Resting =>
      && CurrentOk(r, tail, |r.starts|, |r.starts|)
      && |r.starts| == CeilBlocks(tail)
      && r.tailBlock == LastBlock(r.starts, |r.starts|)
    case Choose(op) => Allocating(r, tail, op)
    case Scan(op, i) => Allocating(r, tail, op) && op.need > 0 && |r.starts| > 0 && r.Oldest() < op.c0
        && i <= BLOCK_SIZE
    case CheckFull(op) => Allocating(r, tail, op) && op.need > 0
    case Grow(op) => Allocating(r, tail, op) && op.need > 0 && (r.headers == [] || r.slotsUsed == r.size)
    case Requisition(op) => Allocating(r, tail, op) && op.need > 0 && r.headers != [] && r.slotsUsed < r.size
    case WriteBase(op) => Entering(r, tail, op)
    case WriteBlock(op) => Entering(r, tail, op) && EntryAt(r.Current(), |r.starts| - 1).base == op.base
    case ResetBlocks(op, b, n) =>
      Allocating(r, tail, op) && op.need == 0 && op.bulk && op.c0 <= n < |r.starts| && b == r.starts[n]
    case StoreFront(op) =>
      OpOk(r, tail, op, |r.starts|) && CurrentOk(r, tail, |r.starts|, op.c0)
      && op.need == 0 && |r.starts| > op.c0 && r.tailBlock == LastBlock(r.starts, |r.starts|)
    case Construct(op, k, stop, end, j) =>
      && Filling(r, tail, op) && tail <= k <= stop <= tail + |op.values|
      && end == LastBlock(r.starts, |r.starts|)
      && (if |r.starts| == 0 then r.tailBlock == None && stop == k else
          r.Oldest() <= j < |r.starts| && r.tailBlock == Some(r.starts[j])
          && j * BLOCK_SIZE <= k
          && (stop == (j + 1) * BLOCK_SIZE || (stop == tail + |op.values| && stop < (j + 1) * BLOCK_SIZE)))
    case StoreTail(op) => Filling(r, tail, op) && r.tailBlock == LastBlock(r.starts, |r.starts|)
  }

  /// How many values have been constructed.
  ghost predicate ValuesOk<T>(r: Ring<T>, tail: nat, values: seq<T>) {
    match r.pc
    case Construct(op, k, _, _, _) => tail <= k <= tail + |op.values| && |values| == k
        && values[tail..] == op.values[..k - tail]
    case StoreTail(op) => |values| == tail + |op.values| && values[tail..] == op.values
    case _ => |values| == tail
  }

  /// The part of the oldest block scanned so far is empty.
  ghost predicate ScanOk<T>(r: Ring<T>, flags: map<Block, seq<bool>>) {
    r.pc.Scan? ==> forall i | 0 <= i < r.pc.i && i < BLOCK_SIZE :: FlagsOf(flags, BlockAt(r.starts, r.Oldest()))[i]
  }

  /// From which block on the flags have not been reset yet.
  function ResetUpTo<T>(r: Ring<T>): nat {
    if r.pc.ResetBlocks? then r.pc.r
    else if (r.pc.Choose? || r.pc.Scan? || r.pc.CheckFull? || r.pc.Grow? || r.pc.Requisition? || r.pc.WriteBase?
        || r.pc.WriteBlock?)
            && r.pc.op.bulk then r.pc.op.c0
    else |r.starts|
  }

  ghost predicate RingInv<T>(r: Ring<T>, tail: nat) {
    && RingOk(r.starts, r.slotsUsed, r.next)
    && HeadersOk(r.headers, r.starts)
    && PowerOfTwo(r.size) && r.size * BLOCK_SIZE <= HALF
    && RingPcOk(r, tail)
  }

  ghost predicate Inv<T>(s: State<T>) {
    var r := s.ring;
    && Claims.Inv(s.claims)
    && RingInv(r, s.claims.tail)
    && ValuesOk(r, s.claims.tail, s.values)
    && ScanOk(r, s.flags)
    && FlagsOk(s.flags, r.starts, r.Oldest(), ResetUpTo(r), s.done)
    && ElemsOk(s.elems, r.starts, r.Oldest(), s.values, s.got)
    && GotOk(s.got, s.done, s.claims.head, s.values, r.Oldest())
    && JobsOk(s)
  }

  // ------------------------------------------------- consumers keep it

  /// In the ring, different indices live in different places.
  lemma HomesDiffer(starts: seq<Block>, used: nat, next: map<Block, Block>, k: nat, l: nat)
    requires RingOk(starts, used, next)
    requires |starts| - used <= k / BLOCK_SIZE < |starts| && |starts| - used <= l / BLOCK_SIZE < |starts|
    requires k != l
    ensures Home(starts, k) != Home(starts, l)
  {
    if k / BLOCK_SIZE < l / BLOCK_SIZE {
      assert BlockAt(starts, k / BLOCK_SIZE) != BlockAt(starts, l / BLOCK_SIZE);
    } else if l / BLOCK_SIZE < k / BLOCK_SIZE {
      assert BlockAt(starts, l / BLOCK_SIZE) != BlockAt(starts, k / BLOCK_SIZE);
    }
  }

  /// The facts about the current index a consumer can rely on, whatever the producer is doing.
  lemma RingFacts<T>(r: Ring<T>, tail: nat)
    requires RingPcOk(r, tail)
    ensures r.headers == [] ==> tail == 0
    ensures r.headers != [] ==> r.Current().low <= r.Oldest() && tail <= r.Current().shown * BLOCK_SIZE
    ensures tail <= ResetUpTo(r) * BLOCK_SIZE && ResetUpTo(r) <= |r.starts|
  {}

  lemma ValuesFit<T>(r: Ring<T>, tail: nat, values: seq<T>)
    requires RingPcOk(r, tail) && ValuesOk(r, tail, values)
    ensures tail <= |values| <= |r.starts| * BLOCK_SIZE
  {}

  ghost predicate SameOutside<T>(p: ConsumerPC, got: map<nat, T>, done: set<nat>, got': map<nat, T>, done': set<nat>) {
    forall k: nat | !InJob(p, k) :: (k in got' <==> k in got) && (k in done' <==> k in done)
  }

  lemma OthersProgress<T>(s: State<T>, s': State<T>, t: Thread, p: ConsumerPC)
    requires JobsOk(s) && s'.cpc == s.cpc[t := p] && !s.Cpc(t).Idle?
    requires SameOutside(s.Cpc(t), s.got, s.done, s'.got, s'.done) && ProgressOk(p, s'.got, s'.done)
    ensures forall u: Thread :: ProgressOk(s'.Cpc(u), s'.got, s'.done)
  {
    hide JobOk, Moved, Flagged;
    forall u: Thread ensures ProgressOk(s'.Cpc(u), s'.got, s'.done) {
      if u != t {
        assert ProgressOk(s.Cpc(u), s.got, s.done);
        forall k: nat | InJob(s.Cpc(u), k) ensures !InJob(s.Cpc(t), k) {}
      }
    }
  }

  /// A step of `t` on the indices it has claimed does not disturb the other consumers.
  lemma JobsFrame<T>(s: State<T>, s': State<T>, t: Thread, p: ConsumerPC)
    requires JobsOk(s) && s'.cpc == s.cpc[t := p] && !s.Cpc(t).Idle?
    requires s'.ring == s.ring && s'.claims == s.claims
    requires p.Idle? || (p.first == s.Cpc(t).first && p.n == s.Cpc(t).n)
    requires SameOutside(s.Cpc(t), s.got, s.done, s'.got, s'.done)
    requires JobOk(p, s.ring.headers, s.ring.starts) && ProgressOk(p, s'.got, s'.done)
    ensures JobsOk(s')
  {
    hide JobOk, ProgressOk;
    assert s'.Cpc(t) == p && forall u: Thread | u != t :: s'.Cpc(u) == s.Cpc(u);
    OthersProgress(s, s', t, p);
    forall u: Thread ensures JobOk(s'.Cpc(u), s.ring.headers, s.ring.starts) {
      assert JobOk(s.Cpc(u), s.ring.headers, s.ring.starts);
    }
  }

  /// A consumer's step that changes nothing but its own program counter.
  lemma GotoKeepsInv<T>(s: State<T>, t: Thread, p: ConsumerPC)
    requires Inv(s) && !s.Cpc(t).Idle?
    requires p.Idle? || (p.first == s.Cpc(t).first && p.n == s.Cpc(t).n)
    requires JobOk(p, s.ring.headers, s.ring.starts) && ProgressOk(p, s.got, s.done)
    ensures Inv(s.Goto(t, p))
  {
    hide SlotOf, RingOk, HeadersOk, FlagsOk, ElemsOk, GotOk, JobsOk, ProgressOk, RingPcOk, ValuesOk, ScanOk, Claims.Inv;
    JobsFrame(s, s.Goto(t, p), t, p);
  }

  /// An index a consumer has claimed lies in the ring until it is done, and was published.
  lemma ClaimedIsLive<T>(s: State<T>, t: Thread, k: nat)
    requires Inv(s) && InJob(s.Cpc(t), k)
    ensures k < s.claims.head <= s.claims.tail
    ensures s.ring.headers != [] && k / BLOCK_SIZE < s.ring.Current().shown
    ensures k / BLOCK_SIZE < |s.ring.starts|
    ensures !Flagged(s.Cpc(t), k) ==> s.ring.Oldest() <= k / BLOCK_SIZE
  {
    Claims.OutstandingBelowTail(s.claims, []);
    RingFacts(s.ring, s.claims.tail);
    assert ProgressOk(s.Cpc(t), s.got, s.done);
    assert HeaderOk(s.ring.Current(), s.ring.starts);
  }

  /// What the invariant says of one consumer.
  lemma JobAt<T>(s: State<T>, t: Thread)
    requires Inv(s)
    ensures JobOk(s.Cpc(t), s.ring.headers, s.ring.starts) && ProgressOk(s.Cpc(t), s.got, s.done)
    ensures forall h | 0 <= h < |s.ring.headers| :: HeaderOk(s.ring.headers[h], s.ring.starts)
  {}

  predicate SameProgress(p: ConsumerPC, p': ConsumerPC)
    requires !p.Idle? && !p'.Idle?
  {
    && p'.first == p.first && p'.n == p.n
    && (match p
        case LoadHeader(_, _) => p'.LoadFront?
        case LoadFront(_, _, _) => p'.ReadBase?
        case ReadBase(first, n, _, _, _) => p'.ReadBlock? && p'.i == first
        case ReadBlock(_, _, _, _, i) => p'.MoveOut? && p'.begin == p'.i == i
        case MoveOut(_, _, _, _, _, begin, i) => p'.SetFlag? && p'.begin == begin && p'.end == i && p'.m == 0
        case SetFlag(_, _, _, _, _, begin, end, m) => p'.ReadBlock? && p'.i == end && m == end - begin)
  }

  lemma FindableFrame(p: ConsumerPC, p': ConsumerPC, h: Header)
    requires !p.Idle? && !p'.Idle? && SameProgress(p, p') && Findable(p, h)
    ensures Findable(p', h)
  {
    forall k: nat | InJob(p', k) && !Flagged(p', k) ensures h.low <= k / BLOCK_SIZE < h.written {
      assert InJob(p, k) && !Flagged(p, k);
    }
  }

  lemma ProgressFrame<T>(p: ConsumerPC, p': ConsumerPC, got: map<nat, T>, done: set<nat>)
    requires !p.Idle? && !p'.Idle? && SameProgress(p, p') && ProgressOk(p, got, done)
    ensures ProgressOk(p', got, done)
  {
    forall k: nat | InJob(p', k) ensures (k in got <==> Moved(p', k)) && (k in done <==> Flagged(p', k)) {
      assert InJob(p, k);
      assert Moved(p', k) == Moved(p, k) && Flagged(p', k) == Flagged(p, k);
    }
  }

  /// Every index a consumer has claimed and not finished is listed in the current block index.
  lemma CurrentFinds<T>(s: State<T>, t: Thread)
    requires Inv(s) && s.ring.headers != []
    ensures Findable(s.Cpc(t), s.ring.Current())
  {
    hide SlotOf;
    var h := s.ring.Current();
    forall k: nat | InJob(s.Cpc(t), k) && !Flagged(s.Cpc(t), k) ensures h.low <= k / BLOCK_SIZE < h.written {
      ClaimedIsLive(s, t, k);
      RingFacts(s.ring, s.claims.tail);
      assert HeaderOk(h, s.ring.starts);
    }
  }

  lemma LoadHeaderStep<T>(s: State<T>, t: Thread, q: Request<T>)
    requires Inv(s) && t in s.claims.pc && s.Cpc(t).LoadHeader?
    ensures Inv(ConsumerStep(s, t, q))
  {
    hide SlotOf, RingOk, HeadersOk, FlagsOk, ElemsOk, GotOk, JobsOk, ProgressOk, RingPcOk, ValuesOk, ScanOk, Claims.Inv;
    var p := s.Cpc(t);
    JobAt(s, t);
    ClaimedIsLive(s, t, p.first + p.n - 1);
    CurrentFinds(s, t);
    var p' := LoadFront(p.first, p.n, |s.ring.headers| - 1);
    FindableFrame(p, p', s.ring.Current());
    ProgressFrame(p, p', s.got, s.done);
    GotoKeepsInv(s, t, p');
  }

  lemma LoadFrontJob(p: ConsumerPC, headers: seq<Header>, starts: seq<Block>) returns (p': ConsumerPC)
    requires p.LoadFront? && JobOk(p, headers, starts) && HeaderOk(headers[p.h], starts)
    ensures var h := headers[p.h]; p' == ReadBase(p.first, p.n, p.h, h.front, if h.shown > 0 then h.shown - 1 else 0)
    ensures JobOk(p', headers, starts)
  {
    hide SlotOf;
    var h := headers[p.h];
    p' := ReadBase(p.first, p.n, p.h, h.front, if h.shown > 0 then h.shown - 1 else 0);
    assert InJob(p, p.first) && !Flagged(p, p.first);
  }

  lemma LoadFrontStep<T>(s: State<T>, t: Thread, q: Request<T>)
    requires Inv(s) && t in s.claims.pc && s.Cpc(t).LoadFront?
    ensures Inv(ConsumerStep(s, t, q))
  {
    hide SlotOf, RingOk, HeadersOk, FlagsOk, ElemsOk, GotOk, JobsOk, ProgressOk, RingPcOk, ValuesOk, ScanOk, Claims.Inv;
    JobAt(s, t);
    var p' := LoadFrontJob(s.Cpc(t), s.ring.headers, s.ring.starts);
    ProgressFrame(s.Cpc(t), p', s.got, s.done);
    GotoKeepsInv(s, t, p');
  }

  lemma ReadBaseJob(p: ConsumerPC, headers: seq<Header>, starts: seq<Block>) returns (p': ConsumerPC)
    requires p.ReadBase? && JobOk(p, headers, starts) && HeaderOk(headers[p.h], starts)
    ensures var h := headers[p.h];
            p.front < |h.entries| &&
            p' == ReadBlock(p.first, p.n, p.h,
                SlotFrom(p.front, BlockOffset(Wrap(p.first), h.entries[p.front].base), h.size), p.first)
    ensures JobOk(p', headers, starts)
  {
    var h := headers[p.h];
    assert InJob(p, p.first) && !Flagged(p, p.first);
    assert EntryAt(h, p.p).base == Wrap(p.p * BLOCK_SIZE);
    PowersDivideWord(h.size);
    LookupIsExact(p.first, p.first / BLOCK_SIZE, p.p, h.origin, p.front, h.size);
    p' := ReadBlock(p.first, p.n, p.h, SlotFrom(p.front, BlockOffset(Wrap(p.first), h.entries[p.front].base), h.size),
        p.first);
  }

  lemma ReadBaseStep<T>(s: State<T>, t: Thread, q: Request<T>)
    requires Inv(s) && t in s.claims.pc && s.Cpc(t).ReadBase?
    ensures Inv(ConsumerStep(s, t, q))
  {
    hide SlotOf, RingOk, HeadersOk, FlagsOk, ElemsOk, GotOk, JobsOk, ProgressOk, RingPcOk, ValuesOk, ScanOk, Claims.Inv;
    JobAt(s, t);
    var p' := ReadBaseJob(s.Cpc(t), s.ring.headers, s.ring.starts);
    ProgressFrame(s.Cpc(t), p', s.got, s.done);
    GotoKeepsInv(s, t, p');
  }

  /// The lookup leads to the block in which the producer constructed the element.
  lemma ReadBlockJob(p: ConsumerPC, headers: seq<Header>, starts: seq<Block>) returns (p': ConsumerPC)
    requires p.ReadBlock? && JobOk(p, headers, starts) && HeaderOk(headers[p.h], starts)
    ensures p.slot < |headers[p.h].entries|
              && p' == MoveOut(p.first, p.n, p.h, p.slot, headers[p.h].entries[p.slot].block, p.i, p.i)
    ensures p'.block == BlockAt(starts, p.i / BLOCK_SIZE)
    ensures JobOk(p', headers, starts)
  {
    hide SlotOf;
    var h := headers[p.h];
    assert InJob(p, p.i) && !Flagged(p, p.i);
    assert EntryAt(h, p.i / BLOCK_SIZE).block == BlockAt(starts, p.i / BLOCK_SIZE);
    StopIndexIsMin(p.i, p.first + p.n);
    p' := MoveOut(p.first, p.n, p.h, p.slot, h.entries[p.slot].block, p.i, p.i);
    FindableFrame(p, p', h);
  }

  lemma ReadBlockStep<T>(s: State<T>, t: Thread, q: Request<T>)
    requires Inv(s) && t in s.claims.pc && s.Cpc(t).ReadBlock?
    ensures Inv(ConsumerStep(s, t, q))
  {
    hide SlotOf, RingOk, HeadersOk, FlagsOk, ElemsOk, GotOk, JobsOk, ProgressOk, RingPcOk, ValuesOk, ScanOk, Claims.Inv;
    JobAt(s, t);
    var p' := ReadBlockJob(s.Cpc(t), s.ring.headers, s.ring.starts);
    ProgressFrame(s.Cpc(t), p', s.got, s.done);
    GotoKeepsInv(s, t, p');
  }

  lemma MoveOutIndex<T>(p: ConsumerPC, headers: seq<Header>, starts: seq<Block>, got: map<nat, T>, done: set<nat>)
    requires p.MoveOut? && JobOk(p, headers, starts) && ProgressOk(p, got, done)
    requires p.i != StopIndex(p.begin, p.first + p.n)
    ensures InJob(p, p.i) && p.i !in got && !Flagged(p, p.i)
    ensures (p.block, p.i % BLOCK_SIZE) == Home(starts, p.i)
  {
    StopIndexIsMin(p.begin, p.first + p.n);
    SameBlock(p.begin, p.i);
    assert InJob(p, p.i) && !Moved(p, p.i);
  }

  lemma MoveOutJob<T>(p: ConsumerPC, headers: seq<Header>, starts: seq<Block>, got: map<nat, T>, done: set<nat>, v: T)
    requires p.MoveOut? && JobOk(p, headers, starts) && ProgressOk(p, got, done)
    requires p.i != StopIndex(p.begin, p.first + p.n)
    ensures JobOk(NextElement(p), headers, starts)
    ensures ProgressOk(NextElement(p), got[p.i := v], done)
    ensures SameOutside(p, got, done, got[p.i := v], done)
  {
    hide SlotOf;
    StopIndexIsMin(p.begin, p.first + p.n);
    SameBlock(p.begin, p.i);
    var p' := NextElement(p);
    assert InJob(p, p.i) && !Moved(p, p.i);
    assert forall k: nat :: (InJob(p', k) <==> InJob(p, k)) && (Flagged(p', k) <==> Flagged(p, k));
  }

  /// The element a consumer is about to move out is there, and is the value enqueued at its index.
  lemma ElementIsThere<T>(s: State<T>, t: Thread)
    requires Inv(s) && s.Cpc(t).MoveOut? && s.Cpc(t).i != StopIndex(s.Cpc(t).begin, s.Cpc(t).first + s.Cpc(t).n)
    ensures var p := s.Cpc(t); var key := (p.block, p.i % BLOCK_SIZE);
            && s.ring.Oldest() <= p.i / BLOCK_SIZE < |s.ring.starts|
            && p.i < s.claims.head <= |s.values| && key == Home(s.ring.starts, p.i)
            && key in s.elems && s.elems[key] == s.values[p.i]
  {
    hide SlotOf;
    var p := s.Cpc(t);
    JobAt(s, t);
    MoveOutIndex(p, s.ring.headers, s.ring.starts, s.got, s.done);
    ClaimedIsLive(s, t, p.i);
    ValuesFit(s.ring, s.claims.tail, s.values);
  }

  /// Moving out the element at k leaves every other element where it is.
  lemma MovedOut<T>(elems: map<(Block, nat), T>, r: Ring<T>, values: seq<T>, got: map<nat, T>, k: nat)
    requires RingOk(r.starts, r.slotsUsed, r.next)
    requires r.Oldest() <= k / BLOCK_SIZE < |r.starts| && k < |values|
    requires ElemsOk(elems, r.starts, r.Oldest(), values, got)
    ensures ElemsOk(elems - {Home(r.starts, k)}, r.starts, r.Oldest(), values, got[k := values[k]])
  {
    var starts, lo := r.starts, r.Oldest();
    var elems', got' := elems - {Home(starts, k)}, got[k := values[k]];
    forall l: nat | lo <= l / BLOCK_SIZE < |starts| && l < |values| && l !in got'
      ensures Home(starts, l) in elems' && elems'[Home(starts, l)] == values[l]
    {
      HomesDiffer(starts, r.slotsUsed, r.next, k, l);
    }
    forall l: nat | lo <= l / BLOCK_SIZE < |starts| && (l >= |values| || l in got')
      ensures Home(starts, l) !in elems'
    {
      if l != k { assert Home(starts, l) !in elems; }
    }
  }

  lemma GotMore<T>(got: map<nat, T>, done: set<nat>, head: nat, values: seq<T>, lo: int, k: nat)
    requires GotOk(got, done, head, values, lo) && k < head
    ensures GotOk(got[k := values[k]], done, head, values, lo)
  {}

  lemma DoneMore<T>(got: map<nat, T>, done: set<nat>, head: nat, values: seq<T>, lo: int, k: nat)
    requires GotOk(got, done, head, values, lo) && k in got
    ensures GotOk(got, done + {k}, head, values, lo)
  {}

  lemma MoveOne<T>(s: State<T>, t: Thread)
    requires Inv(s) && s.Cpc(t).MoveOut? && s.Cpc(t).i != StopIndex(s.Cpc(t).begin, s.Cpc(t).first + s.Cpc(t).n)
    requires s.Cpc(t).i < |s.values|
    ensures var k := s.Cpc(t).i;
            Inv(s.(got := s.got[k := s.values[k]], elems := s.elems - {Home(s.ring.starts, k)})
                 .Goto(t, NextElement(s.Cpc(t))))
  {
    hide SlotOf, RingOk, HeadersOk, FlagsOk, ElemsOk, GotOk, JobsOk, ProgressOk, RingPcOk, ValuesOk, ScanOk, Claims.Inv;
    var p := s.Cpc(t);
    var k, p' := p.i, NextElement(p);
    JobAt(s, t);
    ElementIsThere(s, t);
    MoveOutIndex(p, s.ring.headers, s.ring.starts, s.got, s.done);
    MoveOutJob(p, s.ring.headers, s.ring.starts, s.got, s.done, s.values[k]);
    MovedOut(s.elems, s.ring, s.values, s.got, k);
    var s' := s.(got := s.got[k := s.values[k]], elems := s.elems - {Home(s.ring.starts, k)}).Goto(t, p');
    GotMore(s.got, s.done, s.claims.head, s.values, s.ring.Oldest(), k);
    JobsFrame(s, s', t, p');
  }

  lemma MoveOutStep<T>(s: State<T>, t: Thread, q: Request<T>)
    requires Inv(s) && t in s.claims.pc && s.Cpc(t).MoveOut?
    ensures Inv(ConsumerStep(s, t, q))
  {
    hide SlotOf, RingOk, HeadersOk, FlagsOk, ElemsOk, GotOk, JobsOk, ProgressOk, RingPcOk, ValuesOk, ScanOk, Claims.Inv;
    var p := s.Cpc(t);
    var end := StopIndex(p.begin, p.first + p.n);
    if p.i == end {
      var p' := SetFlag(p.first, p.n, p.h, p.slot, p.block, p.begin, end, 0);
      JobAt(s, t);
      FindableFrame(p, p', s.ring.headers[p.h]);
      ProgressFrame(p, p', s.got, s.done);
      GotoKeepsInv(s, t, p');
    } else {
      ElementIsThere(s, t);
      MoveOne(s, t);
    }
  }

  lemma NextSlot(begin: nat, end: nat, h: Header, slot: nat)
    requires begin < end && end == begin - begin % BLOCK_SIZE + BLOCK_SIZE
    requires h.size > 0 && PowerOfTwo(h.size) && h.size <= HALF && slot == SlotOf(begin / BLOCK_SIZE, h.origin, h.size)
    ensures end / BLOCK_SIZE == begin / BLOCK_SIZE + 1
    ensures Wrap(slot + 1) % h.size == SlotOf(end / BLOCK_SIZE, h.origin, h.size)
  {
    PowersDivideWord(h.size);
    WrapModulo(slot + 1, h.size);
    ModuloTwice(begin / BLOCK_SIZE - h.origin, h.size);
    ModuloSum(begin / BLOCK_SIZE - h.origin, 1, slot, 1, h.size);
  }

  /// Setting the flag of index e marks e done and nothing else.
  lemma SetOne(flags: map<Block, seq<bool>>, starts: seq<Block>, used: nat, next: map<Block, Block>, upto: nat,
               done: set<nat>, e: nat)
    requires RingOk(starts, used, next) && FlagsOk(flags, starts, |starts| - used, upto, done)
    requires |starts| - used <= e / BLOCK_SIZE < |starts|
    ensures var b := BlockAt(starts, e / BLOCK_SIZE);
            FlagsOk(flags[b := FlagsOf(flags, b)[BLOCK_SIZE - 1 - e % BLOCK_SIZE := true]], starts, |starts| - used,
                upto, done + {e})
  {
    var b := BlockAt(starts, e / BLOCK_SIZE);
    var flags' := flags[b := FlagsOf(flags, b)[BLOCK_SIZE - 1 - e % BLOCK_SIZE := true]];
    forall k: nat | |starts| - used <= k / BLOCK_SIZE < |starts|
      ensures FlagAt(flags', starts, k) <==> k in done + {e} || upto <= k / BLOCK_SIZE
    {
      assert FlagAt(flags, starts, k) <==> k in done || upto <= k / BLOCK_SIZE;
      if k != e { HomesDiffer(starts, used, next, k, e); }
    }
  }

  lemma NextPartJob(p: ConsumerPC, headers: seq<Header>, starts: seq<Block>) returns (p': ConsumerPC)
    requires p.SetFlag? && JobOk(p, headers, starts) && HeaderOk(headers[p.h], starts)
    requires p.m == p.end - p.begin && p.end != p.first + p.n
    ensures p' == ReadBlock(p.first, p.n, p.h, Wrap(p.slot + 1) % headers[p.h].size, p.end)
    ensures JobOk(p', headers, starts)
  {
    var h := headers[p.h];
    StopIndexIsMin(p.begin, p.first + p.n);
    NextSlot(p.begin, p.end, h, p.slot);
    p' := ReadBlock(p.first, p.n, p.h, Wrap(p.slot + 1) % h.size, p.end);
    FindableFrame(p, p', h);
  }

  lemma SetFlagJob<T>(p: ConsumerPC, headers: seq<Header>, starts: seq<Block>, got: map<nat, T>,
                      done: set<nat>) returns (e: nat)
    requires p.SetFlag? && JobOk(p, headers, starts) && ProgressOk(p, got, done)
    requires p.m != p.end - p.begin
    ensures e == FlaggedIndex(p.end, p.m) && InJob(p, e) && e in got && !Flagged(p, e)
    ensures p.block == BlockAt(starts, e / BLOCK_SIZE)
    ensures FlagIndex(p.begin, p.end) + p.m == BLOCK_SIZE - 1 - e % BLOCK_SIZE
    ensures JobOk(NextFlag(p), headers, starts) && ProgressOk(NextFlag(p), got, done + {e})
    ensures SameOutside(p, got, done, got, done + {e})
  {
    hide SlotOf;
    StopIndexIsMin(p.begin, p.first + p.n);
    e := FlaggedIndex(p.end, p.m);
    SameBlock(p.begin, e);
    assert InJob(p, e) && Moved(p, e) && !Flagged(p, e);
    var p' := NextFlag(p);
    assert forall k: nat :: (InJob(p', k) <==> InJob(p, k)) && (Flagged(p', k) <==> Flagged(p, k) || k == e);
  }

  lemma IdleJob<T>(headers: seq<Header>, starts: seq<Block>, got: map<nat, T>, done: set<nat>)
    ensures JobOk(Idle, headers, starts) && ProgressOk(Idle, got, done)
  {}

  /// Consumers only ever set flags, so what the producer has scanned stays scanned.
  lemma ScanKept<T>(r: Ring<T>, flags: map<Block, seq<bool>>, b: Block, i: nat)
    requires ScanOk(r, flags) && i < BLOCK_SIZE
    ensures ScanOk(r, flags[b := FlagsOf(flags, b)[i := true]])
  {
    var f := FlagsOf(flags, b)[i := true];
    var oldest := BlockAt(r.starts, r.Oldest());
    assert FlagsOf(flags[b := f], oldest) == if oldest == b then f else FlagsOf(flags, oldest);
  }

  lemma FlagOne<T>(s: State<T>, t: Thread) returns (e: nat)
    requires Inv(s) && s.Cpc(t).SetFlag? && s.Cpc(t).m != s.Cpc(t).end - s.Cpc(t).begin
    ensures var p := s.Cpc(t);
            && e == FlaggedIndex(p.end, p.m)
            && FlagIndex(p.begin, p.end) + p.m == BLOCK_SIZE - 1 - e % BLOCK_SIZE
            && p.h < |s.ring.headers| && s.ring.headers[p.h].size > 0 && p.begin < p.end
            && Inv(s.(flags := s.flags[p.block := FlagsOf(s.flags, p.block)[BLOCK_SIZE - 1 - e % BLOCK_SIZE := true]],
                      done := s.done + {e}).Goto(t, NextFlag(p)))
  {
    hide SlotOf, RingOk, HeadersOk, FlagsOk, ElemsOk, GotOk, JobsOk, ProgressOk, RingPcOk, ValuesOk, ScanOk, Claims.Inv;
    var p := s.Cpc(t);
    JobAt(s, t);
    e := SetFlagJob(p, s.ring.headers, s.ring.starts, s.got, s.done);
    ClaimedIsLive(s, t, e);
    SetOne(s.flags, s.ring.starts, s.ring.slotsUsed, s.ring.next, ResetUpTo(s.ring), s.done, e);
    var s' := s.(flags := s.flags[p.block := FlagsOf(s.flags, p.block)[BLOCK_SIZE - 1 - e % BLOCK_SIZE := true]],
                 done := s.done + {e}).Goto(t, NextFlag(p));
    ScanKept(s.ring, s.flags, p.block, BLOCK_SIZE - 1 - e % BLOCK_SIZE);
    DoneMore(s.got, s.done, s.claims.head, s.values, s.ring.Oldest(), e);
    JobsFrame(s, s', t, NextFlag(p));
  }

  lemma SetFlagStep<T>(s: State<T>, t: Thread, q: Request<T>)
    requires Inv(s) && t in s.claims.pc && s.Cpc(t).SetFlag?
    ensures Inv(ConsumerStep(s, t, q))
  {
    hide SlotOf, RingOk, HeadersOk, FlagsOk, ElemsOk, GotOk, JobsOk, ProgressOk, RingPcOk, ValuesOk, ScanOk, Claims.Inv;
    var p := s.Cpc(t);
    if p.m != p.end - p.begin {
      var e := FlagOne(s, t);
    } else {
      JobAt(s, t);
      StopIndexIsMin(p.begin, p.first + p.n);
      if p.end == p.first + p.n {
        IdleJob(s.ring.headers, s.ring.starts, s.got, s.done);
        GotoKeepsInv(s, t, Idle);
      } else {
        var p' := NextPartJob(p, s.ring.headers, s.ring.starts);
        ProgressFrame(p, p', s.got, s.done);
        GotoKeepsInv(s, t, p');
      }
    }
  }

  /// A consumer that has added its grant to the head index starts on the indices it got.
  lemma NewJob<T>(s: State<T>, claims: Claims.State, t: Thread, n: nat)
    requires JobsOk(s) && s.Cpc(t).Idle? && 0 < n < HALF
    requires claims.head == s.claims.head + n && claims.pc == s.claims.pc[t := Claims.Idle]
    requires GotOk(s.got, s.done, s.claims.head, s.values, s.ring.Oldest())
    ensures JobsOk(s.(claims := claims).Goto(t, LoadHeader(s.claims.head, n)))
  {
    hide SlotOf, AtHeader;
    var s' := s.(claims := claims).Goto(t, LoadHeader(s.claims.head, n));
    assert forall u: Thread | u != t :: s'.Cpc(u) == s.Cpc(u);
    forall u: Thread ensures ProgressOk(s'.Cpc(u), s'.got, s'.done) {
      assert ProgressOk(s.Cpc(u), s.got, s.done);
    }
    forall u: Thread ensures JobOk(s'.Cpc(u), s.ring.headers, s.ring.starts) {
      assert JobOk(s.Cpc(u), s.ring.headers, s.ring.starts);
    }
  }

  lemma SameJobs<T>(s: State<T>, claims: Claims.State, t: Thread)
    requires JobsOk(s) && s.Cpc(t).Idle? && t in s.claims.pc
    requires claims.head >= s.claims.head && t in claims.pc && claims.pc == s.claims.pc[t := claims.pc[t]]
    ensures JobsOk(s.(claims := claims))
  {
    hide SlotOf, AtHeader, Moved, Flagged;
    var s' := s.(claims := claims);
    assert forall u: Thread :: s'.Cpc(u) == s.Cpc(u);
    forall u: Thread ensures ProgressOk(s'.Cpc(u), s'.got, s'.done) { assert ProgressOk(s.Cpc(u), s.got, s.done); }
    forall u: Thread ensures JobOk(s'.Cpc(u), s.ring.headers, s.ring.starts) {
      assert JobOk(s.Cpc(u), s.ring.headers, s.ring.starts);
    }
  }

  lemma GotBelow<T>(got: map<nat, T>, done: set<nat>, head: nat, head': nat, values: seq<T>, lo: int)
    requires GotOk(got, done, head, values, lo) && head <= head' <= |values|
    ensures GotOk(got, done, head', values, lo)
  {}

  lemma ClaimStepKeepsInv<T>(s: State<T>, t: Thread, q: Request<T>)
    requires Inv(s) && t in s.claims.pc && s.Cpc(t).Idle? && Claims.InRange(s.claims, t)
    ensures Inv(ConsumerStep(s, t, q))
  {
    hide SlotOf, RingOk, HeadersOk, FlagsOk, ElemsOk, GotOk, JobsOk, ProgressOk, RingPcOk, ValuesOk, ScanOk,
        Claims.Inv, Claims.Step;
    var q' := if q.Dequeue? then Claims.Dequeue(q.max) else Claims.Go;
    var c' := Claims.Step(s.claims, t, q');
    var p := s.claims.pc[t];
    Claims.StepKeepsInv(s.claims, t, q');
    Claims.StepEffect(s.claims, t, q');
    ValuesFit(s.ring, s.claims.tail, s.values);
    Claims.OutstandingBelowTail(c', []);
    GotBelow(s.got, s.done, s.claims.head, c'.head, s.values, s.ring.Oldest());
    if p.Advance? && p.granted > 0 {
      Claims.ClaimIsBelowTail(s.claims, t);
      NewJob(s, c', t, p.granted);
    } else {
      SameJobs(s, c', t);
    }
  }

  lemma ConsumerKeepsInv<T>(s: State<T>, t: Thread, q: Request<T>)
    requires Inv(s) && t in s.claims.pc && Claims.InRange(s.claims, t)
    ensures Inv(ConsumerStep(s, t, q))
  {
    match s.Cpc(t) {
      case Idle => ClaimStepKeepsInv(s, t, q);
      case LoadHeader(_, _) => LoadHeaderStep(s, t, q);
      case LoadFront(_, _, _) => LoadFrontStep(s, t, q);
      case ReadBase(_, _, _, _, _) => ReadBaseStep(s, t, q);
      case ReadBlock(_, _, _, _, _) => ReadBlockStep(s, t, q);
      case MoveOut(_, _, _, _, _, _, _) => MoveOutStep(s, t, q);
      case SetFlag(_, _, _, _, _, _, _, _) => SetFlagStep(s, t, q);
    }
  }

  // --------------------------------------------------- the producer keeps it

  lemma BeginsOp<T>(r: Ring<T>, tail: nat, values: seq<T>, bulk: bool)
    requires RingPcOk(r, tail) && r.pc.Resting? && (bulk || |values| == 1) && |values| < HALF
    requires r.slotsUsed <= |r.starts|
    ensures Allocating(r, tail, Begin(r, tail, values, bulk).op)
  {
    hide SlotOf, BlocksNeeded, FirstBase;
    NeedIsExact(tail, |values|, bulk);
    if bulk || tail % BLOCK_SIZE == 0 {
      BaseIsExact(tail, bulk);
    } else {
      NeedNone(tail);
    }
  }

  /// The ring turned by one block.
  lemma RingTurned(starts: seq<Block>, used: nat, next: map<Block, Block>, b: Block)
    requires RingOk(starts, used, next) && used > 0 && b == BlockAt(starts, |starts| - used)
    ensures RingOk(starts + [b], used, next)
  {
    var starts' := starts + [b];
    var c := |starts|;
    assert forall j | 0 <= j < c :: BlockAt(starts', j) == BlockAt(starts, j);
    forall j | c + 1 - used <= j < c + 1
      ensures NextOf(next, BlockAt(starts', j)) == BlockAt(starts', if j + 1 < c + 1 then j + 1 else c + 1 - used)
    {
      if j < c {
        assert NextOf(next, BlockAt(starts, j)) == BlockAt(starts, if j + 1 < c then j + 1 else c - used);
      } else {
        assert NextOf(next, BlockAt(starts, c - used)) ==
            BlockAt(starts, if c - used + 1 < c then c - used + 1 else c - used);
      }
    }
  }

  /// The ring with one more block between its newest and its oldest.
  lemma RingExtended<T>(r: Ring<T>, b: Block)
    requires RingOk(r.starts, r.slotsUsed, r.next) && b !in r.starts
    requires r.tailBlock == LastBlock(r.starts, |r.starts|)
    ensures var r' := LinkBlock(r, b); RingOk(r.starts + [b], r'.slotsUsed, r'.next)
  {
    var starts', c := r.starts + [b], |r.starts|;
    var r' := LinkBlock(r, b);
    assert forall j | 0 <= j < c :: BlockAt(starts', j) == BlockAt(r.starts, j) && BlockAt(starts', j) != b;
    forall j | c - r.slotsUsed <= j < c + 1
      ensures NextOf(r'.next, BlockAt(starts', j)) == BlockAt(starts', if j + 1 < c + 1 then j + 1 else c - r.slotsUsed)
    {
      if c > 0 {
        assert NextOf(r.next, BlockAt(r.starts, c - 1)) == BlockAt(r.starts, c - r.slotsUsed);
        if j < c {
          assert NextOf(r.next, BlockAt(r.starts, j)) ==
                 BlockAt(r.starts, if j + 1 < c then j + 1 else c - r.slotsUsed);
        }
      }
    }
  }

  lemma HeadersExtended(headers: seq<Header>, starts: seq<Block>, b: Block)
    requires HeadersOk(headers, starts)
    ensures HeadersOk(headers, starts + [b])
  {
    forall h | h in headers ensures HeaderOk(h, starts + [b]) { HeaderExtended(h, starts, b); }
  }

  lemma HeaderExtended(h: Header, starts: seq<Block>, b: Block)
    requires HeaderOk(h, starts)
    ensures HeaderOk(h, starts + [b])
  {
    hide SlotOf;
    assert forall p | 0 <= p < |starts| :: BlockAt(starts + [b], p) == BlockAt(starts, p);
  }

  lemma RetireOk(h: Header, starts: seq<Block>)
    requires HeaderOk(h, starts) && h.written + 1 == |starts|
    ensures HeaderOk(Retire(h, |starts|), starts)
    ensures Retire(h, |starts|).low + h.size >= |starts|
  {
    hide SlotOf;
    assert forall p :: EntryAt(Retire(h, |starts|), p) == EntryAt(h, p);
  }

  /// Replacing the current index by a good one.
  lemma CurrentReplaced(headers: seq<Header>, h: Header, starts: seq<Block>)
    requires headers != [] && HeadersOk(headers, starts) && HeaderOk(h, starts)
    ensures HeadersOk(headers[|headers| - 1 := h], starts)
  {
    hide SlotOf;
    var headers' := headers[|headers| - 1 := h];
    forall x | x in headers' ensures HeaderOk(x, starts) {
      var i :| 0 <= i < |headers'| && headers'[i] == x;
      if i < |headers| - 1 { assert headers[i] in headers; }
    }
  }

  lemma TakesBlock<T>(r: Ring<T>, tail: nat, op: Op<T>, b: Block)
    requires r.headers != [] && HeadersOk(r.headers, r.starts)
    requires r.Current().written == |r.starts| && r.Current().size == r.size
    ensures var r' := TakeBlock(r, op, b); HeadersOk(r'.headers, r'.starts)
    ensures TakeBlock(r, op, b).Current().low + r.size >= |r.starts| + 1
  {
    hide SlotOf;
    assert r.Current() in r.headers;
    HeadersExtended(r.headers, r.starts, b);
    RetireOk(r.Current(), r.starts + [b]);
    CurrentReplaced(r.headers, Retire(r.Current(), |r.starts| + 1), r.starts + [b]);
  }

  lemma ScanTakes<T>(r: Ring<T>, tail: nat, op: Op<T>)
    requires RingInv(r, tail) && r.pc == Scan(op, BLOCK_SIZE)
    ensures RingInv(TakeBlock(r, op, r.Next(r.Tail())), tail)
    ensures r.Next(r.Tail()) == BlockAt(r.starts, r.Oldest())
  {
    hide SlotOf;
    var b, c := r.Next(r.Tail()), |r.starts|;
    assert NextOf(r.next, BlockAt(r.starts, c - 1)) == BlockAt(r.starts, c - r.slotsUsed);
    TakesBlock(r, tail, op, b);
    RingTurned(r.starts, r.slotsUsed, r.next, b);
  }

  lemma RequisitionTakes<T>(r: Ring<T>, tail: nat, op: Op<T>, b: Block)
    requires RingInv(r, tail) && r.pc == Requisition(op) && b !in r.starts
    ensures RingInv(TakeBlock(LinkBlock(r, b), op.(pooled := true), b), tail)
  {
    hide SlotOf;
    RingExtended(r, b);
    TakesBlock(LinkBlock(r, b), tail, op, b);
  }

  /// Doubling a full index keeps the entry of every block of the ring.
  lemma GrownFinds(old_: seq<Entry>, front: nat, used: nat, c: nat, origin: int, p: int)
    requires |old_| > 0 && used <= |old_| && front == SlotOf(c, origin, |old_|) && c - used <= p < c
    ensures |GrownEntries(old_, front, used)| == 2 * |old_|
    ensures GrownEntries(old_, front, used)[SlotOf(p, c - used, 2 * |old_|)] == old_[SlotOf(p, origin, |old_|)]
  {
    var i := p - (c - used);
    ModuloUnique(i, 0, i, 2 * |old_|);
    GrownSlot(c, origin, used, p, |old_|);
  }

  lemma GrownSlot(c: nat, origin: int, used: nat, p: int, size: nat)
    requires size > 0
    ensures (SlotOf(c, origin, size) - used + (p - (c - used))) % size == SlotOf(p, origin, size)
  {
    ModuloTwice(c - origin, size);
    ModuloSum(c - origin, p - c, SlotOf(c, origin, size), p - c, size);
  }

  lemma ExposedFront(exposed: nat, origin: nat, size: nat)
    requires 0 < exposed < size && size < WORD
    ensures Wrap(exposed - 1) == SlotOf(origin + exposed - 1, origin, size)
  {
    WrapSmall(exposed - 1);
    ModuloUnique(exposed - 1, 0, exposed - 1, size);
  }

  lemma GrownHeaderOk<T>(r: Ring<T>, exposed: nat)
    requires r.slotsUsed <= |r.starts| && exposed <= r.slotsUsed <= r.size && r.size > 0
    requires PowerOfTwo(r.size) && 2 * r.size * BLOCK_SIZE <= HALF
    requires r.headers == [] ==> r.starts == []
    requires r.headers != [] ==>
               var h := r.Current();
               HeaderOk(h, r.starts) && h.size == r.size && h.low <= r.Oldest() && h.written == |r.starts|
               && r.front == SlotOf(|r.starts|, h.origin, h.size)
    ensures HeaderOk(GrowIndex(r, exposed).Current(), r.starts)
  {
    hide SlotOf;
    var h, c := GrowIndex(r, exposed).Current(), |r.starts|;
    assert PowerOfTwo(2 * r.size);
    if exposed > 0 { ExposedFront(exposed, h.origin, 2 * r.size); }
    if r.headers != [] {
      var old_ := r.Current();
      forall p | h.low <= p < h.written ensures EntryAt(h, p) == Entry(Wrap(p * BLOCK_SIZE), BlockAt(r.starts, p)) {
        GrownFinds(old_.entries, r.front, r.slotsUsed, c, old_.origin, p);
        assert EntryAt(h, p) == EntryAt(old_, p);
      }
    }
  }

  lemma GrowsIndex<T>(r: Ring<T>, tail: nat, op: Op<T>)
    requires RingInv(r, tail) && r.pc == Grow(op) && 2 * r.size * BLOCK_SIZE <= HALF
    ensures RingInv(GrowIndex(r, if op.bulk then op.startSlotsUsed else r.slotsUsed).At(Requisition(op)), tail)
  {
    hide HeaderOk, RingOk, GrownEntries, SlotOf, LastBlock, CeilBlocks, Wrap;
    var exposed := if op.bulk then op.startSlotsUsed else r.slotsUsed;
    assert r.slotsUsed <= |r.starts| by { SlotsWithin(r); }
    var r' := GrowIndex(r, exposed);
    assert r.headers != [] ==> r.Current() in r.headers;
    GrownHeaderOk(r, exposed);
    assert forall x <- r'.headers :: x == r'.Current() || x in r.headers;
    SlotOfNext(|r.starts|, r.slotsUsed, 2 * r.size);
  }

  lemma SlotOfNext(c: nat, used: nat, size: nat)
    requires used < size
    ensures SlotOf(c, c - used, size) == used
  {
    ModuloUnique(used, 0, used, size);
  }

  lemma SlotsWithin<T>(r: Ring<T>)
    requires RingOk(r.starts, r.slotsUsed, r.next)
    ensures r.slotsUsed <= |r.starts|
  {}

  /// Writing the slot of block number c - 1 disturbs no valid entry.
  lemma EntryWritten(h: Header, slot: nat, e: Entry, c: nat)
    requires h.size > 0 && |h.entries| == h.size && slot == SlotOf(c - 1, h.origin, h.size) && h.low + h.size >= c
    ensures var h' := h.(entries := h.entries[slot := e]);
            && EntryAt(h', c - 1) == e
            && (forall p | h.low <= p < c - 1 :: EntryAt(h', p) == EntryAt(h, p))
  {
    hide SlotOf;
    var h' := h.(entries := h.entries[slot := e]);
    forall p | h.low <= p < c - 1 ensures EntryAt(h', p) == EntryAt(h, p) {
      SlotsDiffer(p, c - 1, h.origin, h.size);
    }
  }

  lemma WritesBase<T>(r: Ring<T>, tail: nat, head: nat, empty: seq<bool>, q: Request<T>)
    requires RingInv(r, tail) && r.pc.WriteBase? && |empty| == BLOCK_SIZE
    ensures RingInv(RingStep(r, tail, head, empty, q), tail)
  {
    hide SlotOf;
    var h, op, c := r.Current(), r.pc.op, |r.starts|;
    assert HeaderOk(h, r.starts);
    var e := h.entries[r.front].(base := op.base);
    var h' := h.(entries := h.entries[r.front := e]);
    EntryWritten(h, r.front, e, c);
    assert HeaderOk(h', r.starts);
    CurrentReplaced(r.headers, h', r.starts);
  }

  lemma BlockEntered(h: Header, starts: seq<Block>, slot: nat, b: Block)
    requires HeaderOk(h, starts) && h.written + 1 == |starts| && slot == SlotOf(|starts| - 1, h.origin, h.size)
    requires h.low + h.size >= |starts| && b == BlockAt(starts, |starts| - 1)
    requires EntryAt(h, |starts| - 1).base == Wrap((|starts| - 1) * BLOCK_SIZE)
    ensures HeaderOk(h.(entries := h.entries[slot := h.entries[slot].(block := b)], written := h.written + 1), starts)
  {
    hide SlotOf;
    var c, e := |starts|, h.entries[slot].(block := b);
    var h' := h.(entries := h.entries[slot := e], written := h.written + 1);
    EntryWritten(h, slot, e, c);
    assert forall p :: EntryAt(h', p) == EntryAt(h.(entries := h.entries[slot := e]), p);
  }

  lemma WritesBlock<T>(r: Ring<T>, tail: nat, head: nat, empty: seq<bool>, q: Request<T>)
    requires RingInv(r, tail) && r.pc.WriteBlock? && |empty| == BLOCK_SIZE
    ensures RingInv(RingStep(r, tail, head, empty, q), tail)
  {
    hide SlotOf, RingOk, EntryAt;
    var h, c := r.Current(), |r.starts|;
    assert HeaderOk(h, r.starts);
    BlockEntered(h, r.starts, r.front, r.Tail());
    CurrentReplaced(r.headers,
        h.(entries := h.entries[r.front := h.entries[r.front].(block := r.Tail())], written := h.written + 1),
        r.starts);
    NextFront(r.front, c, h.origin, h.size);
    WrapDifference((c - 1) * BLOCK_SIZE, 0 - BLOCK_SIZE);
  }

  /// The first run of a construction starts in the block of the tail index.
  lemma BeginsConstruct<T>(r: Ring<T>, tail: nat, op: Op<T>)
    requires RingOk(r.starts, r.slotsUsed, r.next) && HeadersOk(r.headers, r.starts)
    requires PowerOfTwo(r.size) && r.size * BLOCK_SIZE <= HALF
    requires Filling(r, tail, op) && r.tailBlock == LastBlock(r.starts, |r.starts|)
    requires tail % BLOCK_SIZE != 0 ==> r.Oldest() <= tail / BLOCK_SIZE
    ensures RingInv(BeginConstruct(r, tail, op), tail)
  {
    hide SlotOf;
    WrapModulo(tail, BLOCK_SIZE);
    StopIndexIsMin(tail, tail + |op.values|);
    if |r.starts| > 0 { StartBlockIs(r, tail, op); }
  }

  lemma StartBlockIs<T>(r: Ring<T>, tail: nat, op: Op<T>)
    requires OpOk(r, tail, op, |r.starts|) && op.need == 0 && |r.starts| > 0
    ensures var b := if tail % BLOCK_SIZE == 0 && op.first.Some? then op.first else op.startBlock;
            var j := if tail % BLOCK_SIZE == 0 && op.first.None? && tail > 0
                     then tail / BLOCK_SIZE - 1 else tail / BLOCK_SIZE;
            j < |r.starts| && b == Some(r.starts[j])
  {}

  lemma StoresFront<T>(r: Ring<T>, tail: nat, head: nat, empty: seq<bool>, q: Request<T>)
    requires RingInv(r, tail) && r.pc.StoreFront? && |empty| == BLOCK_SIZE
    requires tail % BLOCK_SIZE != 0 ==> r.Oldest() <= tail / BLOCK_SIZE
    ensures RingInv(RingStep(r, tail, head, empty, q), tail)
  {
    hide SlotOf;
    var h, op := r.Current(), r.pc.op;
    assert HeaderOk(h, r.starts);
    PreviousFront(r.front, |r.starts|, h.origin, h.size);
    var h' := h.(front := Wrap(r.front - 1) % r.size, shown := h.written);
    assert forall p :: EntryAt(h', p) == EntryAt(h, p);
    assert HeaderOk(h', r.starts);
    CurrentReplaced(r.headers, h', r.starts);
    BeginsConstruct(r.SetCurrent(h'), tail, op);
  }

  /// What may happen to an index between two steps of a consumer: it is extended, and may lose
  /// the entries of blocks that have left the ring.
  predicate Extends(h: Header, h': Header, floor: int) {
    && h'.origin == h.origin && h'.size == h.size && h.written <= h'.written && h.shown <= h'.shown
    && (h'.low == h.low || h'.low <= floor)
  }

  ghost predicate RingExtends<T>(r: Ring<T>, r': Ring<T>, floor: int) {
    && |r.headers| <= |r'.headers| && r.starts <= r'.starts
    && (forall h | 0 <= h < |r.headers| :: Extends(r.headers[h], r'.headers[h], floor))
  }

  lemma JobExtended(p: ConsumerPC, headers: seq<Header>, headers': seq<Header>, starts: seq<Block>,
                    starts': seq<Block>, floor: int)
    requires JobOk(p, headers, starts) && starts <= starts'
    requires |headers| <= |headers'| && forall h | 0 <= h < |headers| :: Extends(headers[h], headers'[h], floor)
    requires forall k: nat | InJob(p, k) :: k / BLOCK_SIZE < |starts| && (!Flagged(p, k) ==> floor <= k / BLOCK_SIZE)
    ensures JobOk(p, headers', starts')
  {
    if !p.Idle? && !p.LoadHeader? {
      var h, h' := headers[p.h], headers'[p.h];
      forall k: nat | InJob(p, k) && !Flagged(p, k) ensures h'.low <= k / BLOCK_SIZE < h'.written {}
      assert p.MoveOut? || p.SetFlag? ==> InJob(p, p.begin);
    }
  }

  lemma JobsExtended<T>(s: State<T>, s': State<T>, floor: int)
    requires Inv(s) && RingExtends(s.ring, s'.ring, floor)
    requires s'.cpc == s.cpc && s'.got == s.got && s'.done == s.done
    requires s'.claims.head == s.claims.head && s'.claims.pc == s.claims.pc
    requires forall k: nat | k / BLOCK_SIZE < floor :: k in s.done
    ensures JobsOk(s')
  {
    hide SlotOf, RingOk, HeadersOk, FlagsOk, ElemsOk, GotOk, RingPcOk, ValuesOk, ScanOk, Claims.Inv, AtHeader, JobOk;
    assert forall t: Thread :: s'.Cpc(t) == s.Cpc(t);
    forall t: Thread ensures JobOk(s'.Cpc(t), s'.ring.headers, s'.ring.starts)
        && ProgressOk(s'.Cpc(t), s'.got, s'.done) {
      JobAt(s, t);
      forall k: nat | InJob(s.Cpc(t), k)
        ensures k / BLOCK_SIZE < |s.ring.starts| && (!Flagged(s.Cpc(t), k) ==> floor <= k / BLOCK_SIZE)
      {
        ClaimedIsLive(s, t, k);
      }
      JobExtended(s.Cpc(t), s.ring.headers, s'.ring.headers, s.ring.starts, s'.ring.starts, floor);
    }
  }

  /// A step that takes no block, resets no flags and constructs nothing.
  lemma RingOnly<T>(s: State<T>, r': Ring<T>)
    requires Inv(s)
    requires r'.starts == s.ring.starts && r'.slotsUsed == s.ring.slotsUsed && ResetUpTo(r') == ResetUpTo(s.ring)
    requires RingInv(r', s.claims.tail) && ValuesOk(r', s.claims.tail, s.values) && ScanOk(r', s.flags)
    requires RingExtends(s.ring, r', s.ring.Oldest())
    ensures Inv(s.(ring := r'))
  {
    hide SlotOf, RingOk, HeadersOk, FlagsOk, ElemsOk, JobsOk, RingPcOk, ValuesOk, ScanOk, RingExtends, Claims.Inv;
    JobsExtended(s, s.(ring := r'), s.ring.Oldest());
  }

  lemma PartialBlockStays<T>(s: State<T>)
    requires Inv(s) && s.claims.tail % BLOCK_SIZE != 0
    ensures s.ring.Oldest() <= s.claims.tail / BLOCK_SIZE
  {
    Claims.OutstandingBelowTail(s.claims, []);
    assert s.claims.tail !in s.got;
  }

  predicate Plain<T>(r: Ring<T>, q: Request<T>) {
    match r.pc
    case Scan(_, i) => i < BLOCK_SIZE
    case Requisition(_) => !q.Granted? || q.block in r.starts
    case ResetBlocks(_, _, _) => false
    case Construct(_, k, stop, _, _) => k == stop
    case StoreTail(_) => false
    case _ => true
  }

  lemma NextInRing<T>(r: Ring<T>, j: nat)
    requires RingOk(r.starts, r.slotsUsed, r.next) && j < |r.starts| && (r.Oldest() <= j || j == |r.starts| - 1)
    ensures NextOf(r.next, r.starts[j]) == BlockAt(r.starts, if j + 1 < |r.starts| then j + 1 else r.Oldest())
    ensures j < |r.starts| - 1 ==> r.starts[j] != r.starts[|r.starts| - 1]
    ensures r.slotsUsed > 0
  {
    assert NextOf(r.next, BlockAt(r.starts, j)) == BlockAt(r.starts, if j + 1 < |r.starts| then j + 1 else r.Oldest());
    assert j < |r.starts| - 1 ==> BlockAt(r.starts, j) != BlockAt(r.starts, |r.starts| - 1);
  }

  predicate SameBlocks<T>(r: Ring<T>, r': Ring<T>) {
    r'.starts == r.starts && r'.slotsUsed == r.slotsUsed && ResetUpTo(r') == ResetUpTo(r)
  }

  lemma BeginStep<T>(r: Ring<T>, tail: nat, head: nat, empty: seq<bool>, q: Request<T>)
    requires RingInv(r, tail) && |empty| == BLOCK_SIZE && r.pc.Resting?
    ensures var r' := RingStep(r, tail, head, empty, q); RingInv(r', tail) && SameBlocks(r, r')
  {
    hide SlotOf, HeadersOk;
    var r' := RingStep(r, tail, head, empty, q);
    if q.Enqueue? && (q.bulk || |q.values| == 1) && |q.values| < HALF {
      SlotsWithin(r);
      BeginsOp(r, tail, q.values, q.bulk);
    }
  }

  lemma SmallStep<T>(r: Ring<T>, tail: nat, head: nat, empty: seq<bool>, q: Request<T>)
    requires RingInv(r, tail) && |empty| == BLOCK_SIZE && Plain(r, q)
    requires r.pc.Scan? || r.pc.CheckFull? || (r.pc.Grow? && !(q.Granted? && 2 * r.size * BLOCK_SIZE <= HALF))
              || r.pc.Requisition?
    ensures var r' := RingStep(r, tail, head, empty, q); RingInv(r', tail) && SameBlocks(r, r')
  {
    hide SlotOf, RingOk, HeadersOk, Begin, BeginConstruct, TakeBlock, LinkBlock, GrowIndex, LastBlock, CeilBlocks, Wrap,
        CircularLessThan;
  }

  lemma AllocatingStill<T>(r: Ring<T>, p: ProducerPC<T>, tail: nat, op: Op<T>)
    requires Allocating(r, tail, op)
    ensures Allocating(r.At(p), tail, op)
  {
    hide SlotOf;
  }

  /// What an enqueue that has enough blocks knows, and one that needs more.
  lemma ChooseFacts<T>(r: Ring<T>, tail: nat, op: Op<T>)
    requires RingOk(r.starts, r.slotsUsed, r.next) && Allocating(r, tail, op)
    ensures op.c0 <= |r.starts| && (op.first.None? <==> |r.starts| == op.c0)
    ensures op.need == 0 && op.first.None? ==> Filling(r, tail, op) && r.tailBlock == LastBlock(r.starts, |r.starts|)
    ensures op.first.Some? ==> op.bulk && op.c0 < |r.starts| && op.first.value == r.starts[op.c0]
    ensures r.tailBlock.Some? ==> |r.starts| > 0 && r.Oldest() <= op.c0
    ensures r.tailBlock.Some? && Some(r.Next(r.Tail())) != op.first ==> r.Oldest() < op.c0
  {
    hide SlotOf;
    if r.tailBlock.Some? { NextInRing(r, |r.starts| - 1); }
  }

  lemma ChooseStep<T>(r: Ring<T>, tail: nat, head: nat, empty: seq<bool>, q: Request<T>)
    requires RingInv(r, tail) && |empty| == BLOCK_SIZE && r.pc.Choose?
    requires tail % BLOCK_SIZE != 0 ==> r.Oldest() <= tail / BLOCK_SIZE
    ensures var r' := RingStep(r, tail, head, empty, q); RingInv(r', tail) && SameBlocks(r, r')
  {
    hide SlotOf, RingOk, HeadersOk, StopIndex, Allocating, OpOk, CurrentOk, LastBlock, Begin, TakeBlock, LinkBlock,
        GrowIndex;
    var op, r' := r.pc.op, RingStep(r, tail, head, empty, q);
    ChooseFacts(r, tail, op);
    if op.need == 0 && op.first.None? {
      hide BeginConstruct;
      BeginsConstruct(r, tail, op);
      BeginsWith(r, tail, op);
    } else {
      AllocatingStill(r, r'.pc, tail, op);
    }
  }

  lemma BeginsWith<T>(r: Ring<T>, tail: nat, op: Op<T>)
    ensures var r' := BeginConstruct(r, tail, op);
            r'.pc.Construct? && r'.starts == r.starts && r'.slotsUsed == r.slotsUsed && ResetUpTo(r') == |r.starts|
  {
    hide StopIndex;
  }

  lemma NextBlockStep<T>(r: Ring<T>, tail: nat, head: nat, empty: seq<bool>, q: Request<T>)
    requires RingInv(r, tail) && |empty| == BLOCK_SIZE && r.pc.Construct? && r.pc.k == r.pc.stop
    ensures var r' := RingStep(r, tail, head, empty, q); RingInv(r', tail) && SameBlocks(r, r')
    ensures RingStep(r, tail, head, empty, q).pc.StoreTail? ==> r.pc.k == tail + |r.pc.op.values|
  {
    hide SlotOf, RingOk, HeadersOk, StopIndex;
    if |r.starts| > 0 {
      NextInRing(r, r.pc.j);
      StopIndexIsMin(r.pc.k, tail + |r.pc.op.values|);
    }
  }

  /// The steps that leave blocks, flags and elements alone.
  lemma PlainRingStep<T>(r: Ring<T>, tail: nat, head: nat, empty: seq<bool>, q: Request<T>)
    requires RingInv(r, tail) && |empty| == BLOCK_SIZE && Plain(r, q)
    requires tail % BLOCK_SIZE != 0 ==> r.Oldest() <= tail / BLOCK_SIZE
    ensures var r' := RingStep(r, tail, head, empty, q); RingInv(r', tail) && SameBlocks(r, r')
  {
    hide SlotOf, RingInv, StopIndex;
    match r.pc {
      case Resting => BeginStep(r, tail, head, empty, q);
      case Choose(op) => ChooseStep(r, tail, head, empty, q);
      case Scan(_, _) => SmallStep(r, tail, head, empty, q);
      case CheckFull(_) => SmallStep(r, tail, head, empty, q);
      case Grow(op) =>
        if q.Granted? && 2 * r.size * BLOCK_SIZE <= HALF { GrowsIndex(r, tail, op); }
        else { SmallStep(r, tail, head, empty, q); }
      case Requisition(_) => SmallStep(r, tail, head, empty, q);
      case WriteBase(_) => WritesBase(r, tail, head, empty, q);
      case WriteBlock(_) => WritesBlock(r, tail, head, empty, q);
      case StoreFront(_) => StoresFront(r, tail, head, empty, q);
      case Construct(_, _, _, _, _) => NextBlockStep(r, tail, head, empty, q);
    }
  }

  /// A plain step only ever adds to the indices.
  lemma PlainExtends<T>(r: Ring<T>, tail: nat, head: nat, empty: seq<bool>, q: Request<T>)
    requires RingInv(r, tail) && |empty| == BLOCK_SIZE && Plain(r, q)
    ensures RingExtends(r, RingStep(r, tail, head, empty, q), r.Oldest())
  {
    hide SlotOf, RingOk, RingPcOk, StopIndex, Begin, GrownEntries, CircularLessThan;
    if r.headers != [] { assert HeaderOk(r.Current(), r.starts); }
  }

  /// A plain step that gets to constructing begins at the tail.
  lemma PlainBegins<T>(r: Ring<T>, tail: nat, head: nat, empty: seq<bool>, q: Request<T>)
    requires |empty| == BLOCK_SIZE && Plain(r, q) && !r.pc.Construct?
    ensures var p := RingStep(r, tail, head, empty, q).pc; !p.StoreTail? && (p.Construct? ==> p.k == tail)
  {
    hide StopIndex, BlocksNeeded, FirstBase, GrownEntries, CircularLessThan, Wrap, Retire, LinkBlock;
  }

  lemma PlainValues<T>(r: Ring<T>, tail: nat, head: nat, empty: seq<bool>, q: Request<T>, values: seq<T>)
    requires RingInv(r, tail) && |empty| == BLOCK_SIZE && Plain(r, q)
    requires ValuesOk(r, tail, values)
    ensures ValuesOk(RingStep(r, tail, head, empty, q), tail, values)
  {
    hide SlotOf, RingOk, HeadersOk, StopIndex, BeginConstruct, TakeBlock, LinkBlock, GrowIndex, Begin;
    if r.pc.Construct? {
      NextBlockStep(r, tail, head, empty, q);
    } else {
      hide RingStep, RingPcOk;
      PlainBegins(r, tail, head, empty, q);
      assert values[tail..] == [];
    }
  }

  lemma PlainScan<T>(r: Ring<T>, tail: nat, head: nat, q: Request<T>, flags: map<Block, seq<bool>>)
    requires RingInv(r, tail) && Plain(r, q) && ScanOk(r, flags)
    ensures ScanOk(RingStep(r, tail, head, FlagsOf(flags, r.Next(r.Tail())), q), flags)
  {
    hide SlotOf, RingOk, HeadersOk;
    if r.pc.Scan? {
      hide OpOk, CurrentOk;
      NextInRing(r, |r.starts| - 1);
    } else {
      ScanBegins(r, tail, head, FlagsOf(flags, r.Next(r.Tail())), q);
    }
  }

  lemma ScanBegins<T>(r: Ring<T>, tail: nat, head: nat, empty: seq<bool>, q: Request<T>)
    requires |empty| == BLOCK_SIZE && !r.pc.Scan?
    ensures var r' := RingStep(r, tail, head, empty, q); r'.pc.Scan? ==> r'.pc.i == 0
  {
    hide StopIndex, BlocksNeeded, FirstBase, GrownEntries, CircularLessThan, Wrap, Retire, LinkBlock;
  }

  lemma PlainStep<T>(s: State<T>, q: Request<T>)
    requires Inv(s) && Plain(s.ring, q)
    ensures Inv(ProducerStep(s, q))
  {
    hide SlotOf, RingInv, FlagsOk, ElemsOk, GotOk, JobsOk, ValuesOk, ScanOk, RingExtends, Claims.Inv, StopIndex;
    var r, tail, empty := s.ring, s.claims.tail, FlagsOf(s.flags, s.ring.Next(s.ring.Tail()));
    if tail % BLOCK_SIZE != 0 { PartialBlockStays(s); }
    PlainRingStep(r, tail, s.claims.head, empty, q);
    PlainExtends(r, tail, s.claims.head, empty, q);
    PlainValues(r, tail, s.claims.head, empty, q, s.values);
    PlainScan(r, tail, s.claims.head, q, s.flags);
    RingOnly(s, RingStep(r, tail, s.claims.head, empty, q));
  }

  // ---- taking the oldest block of the ring again

  /// All elements of the oldest block are gone once all its flags have been seen set.
  lemma OldestIsDone<T>(s: State<T>)
    requires Inv(s) && s.ring.pc.Scan? && s.ring.pc.i == BLOCK_SIZE
    ensures forall k: nat | k / BLOCK_SIZE == s.ring.Oldest() :: k in s.done && k in s.got
    ensures 0 <= s.ring.Oldest() < |s.ring.starts|
  {
    hide SlotOf, HeadersOk, ElemsOk, JobsOk, Claims.Inv;
    var r := s.ring;
    forall k: nat | k / BLOCK_SIZE == r.Oldest() ensures k in s.done && k in s.got {
      assert FlagAt(s.flags, r.starts, k);
    }
  }

  lemma FlagsTurned<T>(flags: map<Block, seq<bool>>, r: Ring<T>, b: Block, bulk: bool, upto: nat, done: set<nat>)
    requires RingOk(r.starts, r.slotsUsed, r.next) && r.slotsUsed > 0 && b == BlockAt(r.starts, r.Oldest())
    requires FlagsOk(flags, r.starts, r.Oldest(), upto, done) && upto <= |r.starts| && (!bulk ==> upto == |r.starts|)
    requires bulk ==> FlagsOf(flags, b) == AllFlags(true)
    requires forall k <- done :: k / BLOCK_SIZE < |r.starts|
    ensures FlagsOk(if bulk then flags else flags[b := AllFlags(false)], r.starts + [b], r.Oldest() + 1,
                    if bulk then upto else |r.starts| + 1, done)
  {
    var starts', c := r.starts + [b], |r.starts|;
    var flags' := if bulk then flags else flags[b := AllFlags(false)];
    forall k: nat | r.Oldest() + 1 <= k / BLOCK_SIZE < c + 1
      ensures FlagAt(flags', starts', k) <==> k in done || (if bulk then upto else c + 1) <= k / BLOCK_SIZE
    {
      if k / BLOCK_SIZE < c {
        assert BlockAt(starts', k / BLOCK_SIZE) == BlockAt(r.starts, k / BLOCK_SIZE);
        assert BlockAt(r.starts, r.Oldest()) != BlockAt(r.starts, k / BLOCK_SIZE);
        assert FlagAt(flags, r.starts, k) <==> k in done || upto <= k / BLOCK_SIZE;
      }
    }
  }

  lemma ElemsTurned<T>(elems: map<(Block, nat), T>, r: Ring<T>, b: Block, values: seq<T>, got: map<nat, T>)
    requires RingOk(r.starts, r.slotsUsed, r.next) && r.slotsUsed > 0 && b == BlockAt(r.starts, r.Oldest())
    requires ElemsOk(elems, r.starts, r.Oldest(), values, got) && |values| <= |r.starts| * BLOCK_SIZE
    requires forall k: nat | k / BLOCK_SIZE == r.Oldest() :: k in got
    ensures ElemsOk(elems, r.starts + [b], r.Oldest() + 1, values, got)
  {
    var starts', lo, c := r.starts + [b], r.Oldest(), |r.starts|;
    assert forall j | 0 <= j < c :: BlockAt(starts', j) == BlockAt(r.starts, j);
    forall x | x in elems ensures x.1 < BLOCK_SIZE &&
        exists j :: lo + 1 <= j < |starts'| && BlockAt(starts', j) == x.0 {
      var j :| lo <= j < c && BlockAt(r.starts, j) == x.0;
      if j == lo { assert BlockAt(starts', c) == x.0; } else { assert BlockAt(starts', j) == x.0; }
    }
    forall k: nat | lo + 1 <= k / BLOCK_SIZE < c + 1 && (k >= |values| || k in got) ensures Home(starts', k) !in elems {
      if k / BLOCK_SIZE == c {
        var l := lo * BLOCK_SIZE + k % BLOCK_SIZE;
        assert l / BLOCK_SIZE == lo && l % BLOCK_SIZE == k % BLOCK_SIZE;
        assert Home(r.starts, l) == Home(starts', k) && l in got;
        assert Home(r.starts, l) !in elems;
      } else {
        assert Home(r.starts, k) == Home(starts', k);
        assert Home(r.starts, k) !in elems;
      }
    }
  }

  lemma GotTurned<T>(got: map<nat, T>, done: set<nat>, head: nat, values: seq<T>, lo: int)
    requires GotOk(got, done, head, values, lo)
    requires forall k: nat | k / BLOCK_SIZE == lo :: k in done
    ensures GotOk(got, done, head, values, lo + 1)
  {}

  lemma TakeExtends<T>(r: Ring<T>, op: Op<T>, b: Block, floor: int)
    requires r.headers != [] && r.Current().size <= |r.starts| + 1 ==> |r.starts| + 1 - r.Current().size <= floor
    ensures RingExtends(r, TakeBlock(r, op, b), floor)
  {
    hide SlotOf;
  }

  lemma OldestFlags<T>(r: Ring<T>, flags: map<Block, seq<bool>>)
    requires ScanOk(r, flags) && r.pc.Scan? && r.pc.i == BLOCK_SIZE
    ensures FlagsOf(flags, BlockAt(r.starts, r.Oldest())) == AllFlags(true)
  {}

  lemma DoneWithin<T>(got: map<nat, T>, done: set<nat>, head: nat, values: seq<T>, lo: int, c: nat)
    requires GotOk(got, done, head, values, lo) && |values| <= c * BLOCK_SIZE
    ensures forall k <- done :: k / BLOCK_SIZE < c
  {
    forall k | k in done ensures k / BLOCK_SIZE < c { assert k in got; }
  }

  lemma WholeBlocksDone<T>(got: map<nat, T>, done: set<nat>, head: nat, values: seq<T>, lo: int)
    requires GotOk(got, done, head, values, lo)
    ensures forall k: nat | k / BLOCK_SIZE < lo :: k in done
  {}

  lemma NotScanning<T>(r: Ring<T>, flags: map<Block, seq<bool>>)
    requires !r.pc.Scan?
    ensures ScanOk(r, flags)
  {}

  lemma NotConstructing<T>(r: Ring<T>, r': Ring<T>, tail: nat, values: seq<T>)
    requires ValuesOk(r, tail, values)
    requires !r.pc.Construct? && !r.pc.StoreTail? && !r'.pc.Construct? && !r'.pc.StoreTail?
    ensures ValuesOk(r', tail, values)
  {}

  lemma ScanTakesStep<T>(s: State<T>, q: Request<T>)
    requires Inv(s) && s.ring.pc.Scan? && s.ring.pc.i == BLOCK_SIZE
    ensures Inv(ProducerStep(s, q))
  {
    hide SlotOf, RingOk, HeadersOk, FlagsOk, ElemsOk, GotOk, JobsOk, ScanOk, ValuesOk, RingExtends, Claims.Inv;
    var r, op := s.ring, s.ring.pc.op;
    var b := r.Next(r.Tail());
    var s' := ProducerStep(s, q);
    var r' := s'.ring;
    OldestIsDone(s);
    ScanTakes(r, s.claims.tail, op);
    OldestFlags(r, s.flags);
    ValuesFit(r, s.claims.tail, s.values);
    DoneWithin(s.got, s.done, s.claims.head, s.values, r.Oldest(), |r.starts|);
    FlagsTurned(s.flags, r, b, op.bulk, ResetUpTo(r), s.done);
    ElemsTurned(s.elems, r, b, s.values, s.got);
    NotConstructing(r, r', s.claims.tail, s.values);
    NotScanning(r', s'.flags);
    GotTurned(s.got, s.done, s.claims.head, s.values, r.Oldest());
    TakeExtends(r, op, b, r.Oldest() + 1);
    WholeBlocksDone(s.got, s.done, s.claims.head, s.values, r.Oldest() + 1);
    JobsExtended(s, s', r.Oldest() + 1);
  }

  // ---- linking a block from the pool

  lemma FlagsLinked(flags: map<Block, seq<bool>>, starts: seq<Block>, lo: int, b: Block, bulk: bool, upto: nat,
                    done: set<nat>)
    requires FlagsOk(flags, starts, lo, upto, done) && upto <= |starts| && (!bulk ==> upto == |starts|)
    requires b !in starts && 0 <= lo
    requires forall k <- done :: k / BLOCK_SIZE < |starts|
    ensures FlagsOk(flags[b := AllFlags(bulk)], starts + [b], lo, if bulk then upto else |starts| + 1, done)
  {
    var starts', c, flags' := starts + [b], |starts|, flags[b := AllFlags(bulk)];
    forall k: nat | lo <= k / BLOCK_SIZE < c + 1
      ensures FlagAt(flags', starts', k) <==> k in done || (if bulk then upto else c + 1) <= k / BLOCK_SIZE
    {
      if k / BLOCK_SIZE < c {
        assert BlockAt(starts', k / BLOCK_SIZE) == BlockAt(starts, k / BLOCK_SIZE)
            && BlockAt(starts, k / BLOCK_SIZE) in starts;
        assert FlagAt(flags, starts, k) <==> k in done || upto <= k / BLOCK_SIZE;
      }
    }
  }

  lemma ElemsLinked<T>(elems: map<(Block, nat), T>, starts: seq<Block>, lo: int, b: Block, values: seq<T>,
                       got: map<nat, T>)
    requires ElemsOk(elems, starts, lo, values, got) && |values| <= |starts| * BLOCK_SIZE
    requires b !in starts && 0 <= lo
    ensures ElemsOk(elems, starts + [b], lo, values, got)
  {
    var starts', c := starts + [b], |starts|;
    assert forall j | 0 <= j < c :: BlockAt(starts', j) == BlockAt(starts, j) && BlockAt(starts, j) in starts;
    forall x | x in elems ensures x.1 < BLOCK_SIZE && exists j :: lo <= j < |starts'| && BlockAt(starts', j) == x.0 {
      var j :| lo <= j < c && BlockAt(starts, j) == x.0;
      assert BlockAt(starts', j) == x.0;
    }
    assert forall k: nat | k / BLOCK_SIZE == c :: Home(starts', k).0 == b;
    assert forall x <- elems :: x.0 in starts;
  }

  lemma LinkTakesStep<T>(s: State<T>, q: Request<T>)
    requires Inv(s) && s.ring.pc.Requisition? && q.Granted? && q.block !in s.ring.starts
    ensures Inv(ProducerStep(s, q))
  {
    hide SlotOf, RingOk, HeadersOk, FlagsOk, ElemsOk, GotOk, JobsOk, ScanOk, ValuesOk, RingExtends, Claims.Inv;
    var r, op, b := s.ring, s.ring.pc.op, q.block;
    var s' := ProducerStep(s, q);
    var r' := s'.ring;
    RequisitionTakes(r, s.claims.tail, op, b);
    SlotsWithin(r);
    ValuesFit(r, s.claims.tail, s.values);
    NotConstructing(r, r', s.claims.tail, s.values);
    NotScanning(r', s'.flags);
    DoneWithin(s.got, s.done, s.claims.head, s.values, r.Oldest(), |r.starts|);
    FlagsLinked(s.flags, r.starts, r.Oldest(), b, op.bulk, ResetUpTo(r), s.done);
    ElemsLinked(s.elems, r.starts, r.Oldest(), b, s.values, s.got);
    LinkExtends(r, op, b, r.Oldest());
    WholeBlocksDone(s.got, s.done, s.claims.head, s.values, r.Oldest());
    JobsExtended(s, s', r.Oldest());
  }

  lemma LinkExtends<T>(r: Ring<T>, op: Op<T>, b: Block, floor: int)
    requires r.headers != [] && r.Current().size <= |r.starts| + 1 ==> |r.starts| + 1 - r.Current().size <= floor
    ensures RingExtends(r, TakeBlock(LinkBlock(r, b), op.(pooled := true), b), floor)
  {
    hide SlotOf;
    TakeExtends(LinkBlock(r, b), op, b, floor);
  }

  // ---- the other steps

  lemma ResetRing<T>(r: Ring<T>, tail: nat, head: nat, empty: seq<bool>, q: Request<T>)
    requires RingInv(r, tail) && |empty| == BLOCK_SIZE && r.pc.ResetBlocks?
    ensures var r' := RingStep(r, tail, head, empty, q);
            RingInv(r', tail) && r'.starts == r.starts && r'.slotsUsed == r.slotsUsed && r'.headers == r.headers
            && ResetUpTo(r') == ResetUpTo(r) + 1
    ensures r.Oldest() <= r.pc.r < |r.starts| && r.pc.block == BlockAt(r.starts, r.pc.r)
  {
    hide SlotOf, RingOk, HeadersOk;
    NextInRing(r, r.pc.r);
  }

  lemma FlagsReset(flags: map<Block, seq<bool>>, starts: seq<Block>, used: nat, next: map<Block, Block>, n: nat,
                   done: set<nat>)
    requires RingOk(starts, used, next) && |starts| - used <= n < |starts|
    requires FlagsOk(flags, starts, |starts| - used, n, done)
    requires forall k <- done :: k / BLOCK_SIZE < n
    ensures FlagsOk(flags[BlockAt(starts, n) := AllFlags(false)], starts, |starts| - used, n + 1, done)
  {
    var flags' := flags[BlockAt(starts, n) := AllFlags(false)];
    forall k: nat | |starts| - used <= k / BLOCK_SIZE < |starts|
      ensures FlagAt(flags', starts, k) <==> k in done || n + 1 <= k / BLOCK_SIZE
    {
      assert FlagAt(flags, starts, k) <==> k in done || n <= k / BLOCK_SIZE;
      if k / BLOCK_SIZE < n {
        assert BlockAt(starts, k / BLOCK_SIZE) != BlockAt(starts, n);
      } else if n < k / BLOCK_SIZE {
        assert BlockAt(starts, n) != BlockAt(starts, k / BLOCK_SIZE);
      }
    }
  }

  lemma ResetStep<T>(s: State<T>, q: Request<T>)
    requires Inv(s) && s.ring.pc.ResetBlocks?
    ensures Inv(ProducerStep(s, q))
  {
    hide SlotOf, RingOk, HeadersOk, FlagsOk, ElemsOk, GotOk, JobsOk, ScanOk, ValuesOk, RingExtends, Claims.Inv;
    var r, empty := s.ring, FlagsOf(s.flags, s.ring.Next(s.ring.Tail()));
    var s' := ProducerStep(s, q);
    ResetRing(r, s.claims.tail, s.claims.head, empty, q);
    RingFacts(r, s.claims.tail);
    ValuesAtTail(r, s.claims.tail, s.values);
    DoneWithin(s.got, s.done, s.claims.head, s.values, r.Oldest(), r.pc.r);
    FlagsReset(s.flags, r.starts, r.slotsUsed, r.next, r.pc.r, s.done);
    NotConstructing(r, s'.ring, s.claims.tail, s.values);
    NotScanning(s'.ring, s'.flags);
    WholeBlocksDone(s.got, s.done, s.claims.head, s.values, r.Oldest());
    SameHeadersExtend(r, s'.ring);
    JobsExtended(s, s', r.Oldest());
  }

  lemma ValuesAtTail<T>(r: Ring<T>, tail: nat, values: seq<T>)
    requires ValuesOk(r, tail, values) && !r.pc.Construct? && !r.pc.StoreTail?
    ensures |values| == tail
  {}

  lemma SameHeadersExtend<T>(r: Ring<T>, r': Ring<T>)
    requires r'.headers == r.headers && r'.starts == r.starts
    ensures RingExtends(r, r', r.Oldest())
  {}

  /// The place the producer constructs in is raw memory, and the right one for the index.
  lemma PlaceIsRaw<T>(s: State<T>)
    requires Inv(s) && s.ring.pc.Construct? && s.ring.pc.k != s.ring.pc.stop
    ensures var k := s.ring.pc.k;
            && s.claims.tail <= k < s.claims.tail + |s.ring.pc.op.values| && |s.values| == k
            && (s.ring.Tail(), k % BLOCK_SIZE) == Home(s.ring.starts, k)
            && s.ring.Oldest() <= k / BLOCK_SIZE < |s.ring.starts|
            && Home(s.ring.starts, k) !in s.elems
  {
    hide SlotOf, RingOk, HeadersOk, FlagsOk, GotOk, JobsOk, ScanOk, Claims.Inv;
    ConstructPlace(s.ring, s.claims.tail);
    var k := s.ring.pc.k;
    assert |s.values| == k;
  }

  lemma ConstructPlace<T>(r: Ring<T>, tail: nat)
    requires RingPcOk(r, tail) && r.pc.Construct? && r.pc.k != r.pc.stop
    ensures var k := r.pc.k;
            && tail <= k < tail + |r.pc.op.values|
            && (r.Tail(), k % BLOCK_SIZE) == Home(r.starts, k)
            && r.Oldest() <= k / BLOCK_SIZE < |r.starts|
  {
    hide SlotOf;
    assert r.pc.k / BLOCK_SIZE == r.pc.j;
  }

  lemma ElemAdded<T>(elems: map<(Block, nat), T>, r: Ring<T>, values: seq<T>, got: map<nat, T>, v: T)
    requires RingOk(r.starts, r.slotsUsed, r.next) && r.Oldest() <= |values| / BLOCK_SIZE < |r.starts|
    requires ElemsOk(elems, r.starts, r.Oldest(), values, got)
    requires forall k <- got :: k < |values|
    ensures ElemsOk(elems[Home(r.starts, |values|) := v], r.starts, r.Oldest(), values + [v], got)
  {
    var k, starts, lo := |values|, r.starts, r.Oldest();
    var elems', values' := elems[Home(starts, k) := v], values + [v];
    forall l: nat | lo <= l / BLOCK_SIZE < |starts| && l != k ensures Home(starts, l) != Home(starts, k) {
      HomesDiffer(starts, r.slotsUsed, r.next, k, l);
    }
    assert BlockAt(starts, k / BLOCK_SIZE) == Home(starts, k).0;
  }

  lemma ConstructRing<T>(r: Ring<T>, tail: nat, head: nat, empty: seq<bool>, q: Request<T>)
    requires RingInv(r, tail) && |empty| == BLOCK_SIZE && r.pc.Construct? && r.pc.k != r.pc.stop
    ensures var r' := RingStep(r, tail, head, empty, q);
            RingInv(r', tail) && SameBlocks(r, r') && r'.headers == r.headers
  {
    hide SlotOf, RingOk, HeadersOk;
  }

  lemma ValuesGrow<T>(r: Ring<T>, tail: nat, head: nat, empty: seq<bool>, q: Request<T>, values: seq<T>)
    requires ValuesOk(r, tail, values) && |empty| == BLOCK_SIZE && r.pc.Construct? && r.pc.k != r.pc.stop
    requires r.pc.k < tail + |r.pc.op.values|
    ensures ValuesOk(RingStep(r, tail, head, empty, q), tail, values + [r.pc.op.values[r.pc.k - tail]])
  {
    var k, op := r.pc.k, r.pc.op;
    assert (values + [op.values[k - tail]])[tail..] == values[tail..] + [op.values[k - tail]];
  }

  lemma GotPrefix<T>(got: map<nat, T>, done: set<nat>, head: nat, values: seq<T>, lo: int, v: T)
    requires GotOk(got, done, head, values, lo)
    ensures GotOk(got, done, head, values + [v], lo)
    ensures forall k <- got :: k < |values|
  {}

  lemma ConstructStep<T>(s: State<T>, q: Request<T>)
    requires Inv(s) && s.ring.pc.Construct? && s.ring.pc.k != s.ring.pc.stop
    ensures Inv(ProducerStep(s, q))
  {
    hide SlotOf, RingInv, FlagsOk, ElemsOk, GotOk, JobsOk, ScanOk, ValuesOk, RingExtends, Claims.Inv, Home;
    var r, k, tail, empty := s.ring, s.ring.pc.k, s.claims.tail, FlagsOf(s.flags, s.ring.Next(s.ring.Tail()));
    var s' := ProducerStep(s, q);
    PlaceIsRaw(s);
    ConstructRing(r, tail, s.claims.head, empty, q);
    var v := r.pc.op.values[k - tail];
    ValuesGrow(r, tail, s.claims.head, empty, q, s.values);
    GotPrefix(s.got, s.done, s.claims.head, s.values, r.Oldest(), v);
    RingInvParts(r, tail);
    ElemAdded(s.elems, r, s.values, s.got, v);
    NotScanning(s'.ring, s'.flags);
    WholeBlocksDone(s.got, s.done, s.claims.head, s.values, r.Oldest());
    SameHeadersExtend(r, s'.ring);
    JobsExtended(s, s', r.Oldest());
  }

  lemma RingInvParts<T>(r: Ring<T>, tail: nat)
    requires RingInv(r, tail)
    ensures RingOk(r.starts, r.slotsUsed, r.next) && HeadersOk(r.headers, r.starts) && RingPcOk(r, tail)
  {}

  lemma StoreTailRing<T>(r: Ring<T>, tail: nat, values: seq<T>)
    requires RingInv(r, tail) && ValuesOk(r, tail, values) && r.pc.StoreTail?
    ensures RingInv(r.At(Resting), tail + |r.pc.op.values|) && ValuesOk(r.At(Resting), tail + |r.pc.op.values|, values)
  {
    hide SlotOf, RingOk, HeadersOk;
  }

  lemma StoreTailStep<T>(s: State<T>, q: Request<T>)
    requires Inv(s) && s.ring.pc.StoreTail?
    ensures Inv(ProducerStep(s, q))
  {
    hide SlotOf, RingInv, FlagsOk, ElemsOk, GotOk, JobsOk, ScanOk, ValuesOk, RingExtends, Claims.Inv;
    var s' := ProducerStep(s, q);
    StoreTailRing(s.ring, s.claims.tail, s.values);
    Claims.PublishKeepsInv(s.claims, |s.ring.pc.op.values|);
    NotScanning(s'.ring, s'.flags);
    WholeBlocksDone(s.got, s.done, s.claims.head, s.values, s.ring.Oldest());
    SameHeadersExtend(s.ring, s'.ring);
    JobsExtended(s, s', s.ring.Oldest());
  }

  lemma ProducerKeepsInv<T>(s: State<T>, q: Request<T>)
    requires Inv(s)
    ensures Inv(ProducerStep(s, q))
  {
    hide SlotOf, RingOk, HeadersOk, FlagsOk, ElemsOk, GotOk, JobsOk, ScanOk, ValuesOk, Claims.Inv;
    if Plain(s.ring, q) {
      PlainStep(s, q);
    } else {
      match s.ring.pc {
        case Scan(_, _) => ScanTakesStep(s, q);
        case Requisition(_) => LinkTakesStep(s, q);
        case ResetBlocks(_, _, _) => ResetStep(s, q);
        case Construct(_, _, _, _, _) => ConstructStep(s, q);
        case StoreTail(_) => StoreTailStep(s, q);
      }
    }
  }

  // ------------------------------------------------------------- theorems

  function NewRing<T>(half: nat): Ring<T> {
    Ring(None, 0, half, 0, Resting, [], map[], [])
  }

  /// As constructed; the memory for the first block index may not have been available.
  ghost predicate Init<T>(s: State<T>) {
    && Claims.Init(s.claims)
    && s.ring.slotsUsed == 0
    && (exists half: nat :: PowerOfTwo(half) && 2 * half * BLOCK_SIZE <= HALF
          && (s.ring == NewRing(half) || s.ring == GrowIndex(NewRing(half), 0)))
    && s.flags == map[] && s.elems == map[] && s.cpc == map[] && s.values == [] && s.got == map[] && s.done == {}
  }

  datatype Actor = Producer | Consumer(thread: Thread)

  type Schedule<T> = seq<(Actor, Request<T>)>

  function Move<T>(s: State<T>, m: (Actor, Request<T>)): State<T> {
    match m.0
    case Producer => ProducerStep(s, m.1)
    case Consumer(t) => if t in s.claims.pc then ConsumerStep(s, t, m.1) else s
  }

  function Run<T>(s: State<T>, schedule: Schedule<T>): State<T>
    decreases |schedule|
  {
    if schedule == [] then s else Run(Move(s, schedule[0]), schedule[1..])
  }

  /// No consumer sleeps between its loads until the counters have moved by 2^63.
  predicate NoWrapAround<T>(s: State<T>, schedule: Schedule<T>)
    decreases |schedule|
  {
    schedule == [] ||
    ((schedule[0].0.Consumer? ==> Claims.InRange(s.claims, schedule[0].0.thread))
        && NoWrapAround(Move(s, schedule[0]), schedule[1..]))
  }

  lemma InitRing<T>(s: State<T>)
    requires Init(s)
    ensures RingInv(s.ring, 0) && s.ring.starts == [] && s.ring.pc == Resting
  {
    hide SlotOf, HeaderOk, GrownEntries;
    var half: nat :| PowerOfTwo(half) && 2 * half * BLOCK_SIZE <= HALF
        && (s.ring == NewRing(half) || s.ring == GrowIndex(NewRing(half), 0));
    if s.ring == NewRing(half) { NewRingOk(s.ring, half); } else { NewIndexOk(s.ring, half); }
  }

  lemma NewRingOk<T>(r: Ring<T>, half: nat)
    requires PowerOfTwo(half) && 2 * half * BLOCK_SIZE <= HALF && r == NewRing(half)
    ensures RingInv(r, 0)
  {
    hide SlotOf, HeaderOk;
  }

  lemma NewIndexOk<T>(r: Ring<T>, half: nat)
    requires PowerOfTwo(half) && 2 * half * BLOCK_SIZE <= HALF && r == GrowIndex(NewRing(half), 0)
    ensures RingInv(r, 0)
  {
    hide SlotOf, HeaderOk, GrownEntries, OpOk, EntryAt, Wrap;
    assert PowerOfTwo(2 * half);
    SlotZero(2 * half);
    var r0: Ring<T> := NewRing(half);
    GrownHeaderOk(r0, 0);
    assert r.headers == [r.Current()];
  }

  lemma InitHasInv<T>(s: State<T>)
    requires Init(s)
    ensures Inv(s)
  {
    hide RingInv;
    InitRing(s);
    Claims.InitHasInv(s.claims);
  }

  lemma MoveKeepsInv<T>(s: State<T>, m: (Actor, Request<T>))
    requires Inv(s) && (m.0.Consumer? ==> Claims.InRange(s.claims, m.0.thread))
    ensures Inv(Move(s, m))
  {
    hide Inv, ProducerStep, ConsumerStep;
    match m.0 {
      case Producer => ProducerKeepsInv(s, m.1);
      case Consumer(t) => if t in s.claims.pc { ConsumerKeepsInv(s, t, m.1); }
    }
  }

  /// Every interleaving of the producer and any number of consumers keeps the invariant.
  lemma {:induction false} RunKeepsInv<T>(s: State<T>, schedule: Schedule<T>)
    requires Inv(s) && NoWrapAround(s, schedule)
    ensures Inv(Run(s, schedule))
    decreases |schedule|
  {
    hide Inv, Move;
    if schedule != [] {
      MoveKeepsInv(s, schedule[0]);
      RunKeepsInv(Move(s, schedule[0]), schedule[1..]);
    }
  }

  // ---- long runs

  lemma ClaimGrows<T>(s: State<T>, t: Thread, q: Request<T>)
    requires t in s.claims.pc
    ensures var e := ConsumerStep(s, t, q).claims; s.claims.tail <= e.tail && s.claims.optimistic <= e.optimistic
  {
    hide StopIndex, BlockOffset, SlotFrom, Wrap, FlagsOf, Claims.Step;
    Claims.CountersGrow(s.claims, t, if q.Dequeue? then Claims.Dequeue(q.max) else Claims.Go);
  }

  lemma ProducerGrows<T>(s: State<T>, q: Request<T>)
    ensures var e := ProducerStep(s, q).claims; s.claims.tail <= e.tail && s.claims.optimistic == e.optimistic
  {
    hide RingStep, StepFlags;
  }

  lemma {:induction false} RunGrows<T>(s: State<T>, schedule: Schedule<T>)
    ensures s.claims.tail <= Run(s, schedule).claims.tail && s.claims.optimistic <= Run(s, schedule).claims.optimistic
    decreases |schedule|
  {
    hide ConsumerStep, ProducerStep;
    if schedule != [] {
      match schedule[0].0 {
        case Producer => ProducerGrows(s, schedule[0].1);
        case Consumer(t) => if t in s.claims.pc { ClaimGrows(s, t, schedule[0].1); }
      }
      RunGrows(Move(s, schedule[0]), schedule[1..]);
    }
  }

  /// A run in which fewer than 2^63 elements are enqueued and asked for never wraps around.
  lemma {:induction false} BoundedRunsDoNotWrap<T>(s: State<T>, schedule: Schedule<T>)
    requires Inv(s) && Run(s, schedule).claims.tail < HALF && Run(s, schedule).claims.optimistic < HALF
    ensures NoWrapAround(s, schedule)
    decreases |schedule|
  {
    hide Inv, Move;
    if schedule != [] {
      RunGrows(s, schedule);
      assert Claims.Inv(s.claims) by { ClaimsHaveInv(s); }
      if schedule[0].0.Consumer? { Claims.CountersInRange(s.claims, schedule[0].0.thread); }
      MoveKeepsInv(s, schedule[0]);
      BoundedRunsDoNotWrap(Move(s, schedule[0]), schedule[1..]);
    }
  }

  lemma ClaimsHaveInv<T>(s: State<T>)
    requires Inv(s)
    ensures Claims.Inv(s.claims)
  {}

  // ---- no step fails

  /// A consumer that has claimed indices never finds an index, a slot, a block or an element
  /// missing: every step takes it on, and it ends only when it has dealt with its last index.
  lemma ConsumerMovesOn<T>(s: State<T>, t: Thread, q: Request<T>)
    requires Inv(s) && t in s.claims.pc && !s.Cpc(t).Idle?
    ensures var p, p' := s.Cpc(t), ConsumerStep(s, t, q).Cpc(t);
            p' != p && (p'.Idle? ==> p.SetFlag? && p.end == p.first + p.n && p.m == p.end - p.begin)
  {
    hide Inv, HeaderOk, JobOk, ProgressOk, StopIndex, BlockOffset, SlotFrom, FlagsOf, Wrap, ClaimStep, FlaggedIndex,
        FlagIndex;
    SlotsAreThere(s, t);
    if s.Cpc(t).MoveOut? && s.Cpc(t).i != StopIndex(s.Cpc(t).begin, s.Cpc(t).first + s.Cpc(t).n) {
      ElementIsThere(s, t);
    }
  }

  /// What a consumer is about to read is there.
  lemma SlotsAreThere<T>(s: State<T>, t: Thread)
    requires Inv(s) && !s.Cpc(t).Idle?
    ensures var p := s.Cpc(t);
            && s.ring.headers != []
            && (!p.LoadHeader? ==> p.h < |s.ring.headers| && s.ring.headers[p.h].size > 0)
            && (p.ReadBase? ==> p.front < |s.ring.headers[p.h].entries|)
            && (p.ReadBlock? ==> p.slot < |s.ring.headers[p.h].entries|)
            && (p.SetFlag? ==>
                  p.begin < p.end && (p.m != p.end - p.begin ==> 0 <= FlagIndex(p.begin, p.end) + p.m < BLOCK_SIZE))
  {
    hide SlotOf, StopIndex, BlockOffset, SlotFrom, Findable, Inv, ProgressOk, FlagIndex;
    var p := s.Cpc(t);
    JobAt(s, t);
    ClaimedIsLive(s, t, p.first);
    match p {
      case ReadBase(_, _, _, _, _) => var _ := ReadBaseJob(p, s.ring.headers, s.ring.starts);
      case ReadBlock(_, _, _, _, _) => var _ := ReadBlockJob(p, s.ring.headers, s.ring.starts);
      case SetFlag(_, _, _, _, _, _, _, _) =>
        StopIndexIsMin(p.begin, p.first + p.n);
        if p.m != p.end - p.begin { var _ := SetFlagJob(p, s.ring.headers, s.ring.starts, s.got, s.done); }
      case _ =>
    }
  }

  /// Where the producer may stay: at rest, when the pool offers a block the ring has already, and
  /// when a bulk enqueue is refused (which is not modelled further).
  predicate Waits<T>(r: Ring<T>, head: nat, q: Request<T>) {
    match r.pc
    case Resting => !(q.Enqueue? && (q.bulk || |q.values| == 1) && |q.values| < HALF)
    case CheckFull(op) => op.bulk && !CircularLessThan(Wrap(head), Wrap(op.base + BLOCK_SIZE))
    case Grow(op) => op.bulk && !(q.Granted? && 2 * r.size * BLOCK_SIZE <= HALF)
    case Requisition(op) => if q.Granted? then q.block in r.starts else op.bulk
    case _ => false
  }

  /// The producer never finds its index, a slot or a block missing: every other step takes it on.
  lemma ProducerMovesOn<T>(s: State<T>, q: Request<T>)
    requires Inv(s)
    ensures ProducerStep(s, q).ring.pc == s.ring.pc <==> Waits(s.ring, s.claims.head, q)
  {
    hide Inv, RingStep, StepFlags;
    RingHasInv(s);
    var r := s.ring;
    RingMovesOn(r, s.claims.tail, s.claims.head, FlagsOf(s.flags, r.Next(r.Tail())), q);
  }

  lemma RingHasInv<T>(s: State<T>)
    requires Inv(s)
    ensures RingInv(s.ring, s.claims.tail)
  {}

  lemma RingMovesOn<T>(r: Ring<T>, tail: nat, head: nat, empty: seq<bool>, q: Request<T>)
    requires RingInv(r, tail) && |empty| == BLOCK_SIZE
    ensures RingStep(r, tail, head, empty, q).pc == r.pc <==> Waits(r, head, q)
  {
    hide RingInv, StopIndex, LinkBlock, GrowIndex, BlocksNeeded, FirstBase, Retire, Wrap, CircularLessThan;
    if r.pc.WriteBase? || r.pc.WriteBlock? || r.pc.StoreFront? { FrontIsSlot(r, tail); }
  }

  lemma FrontIsSlot<T>(r: Ring<T>, tail: nat)
    requires RingInv(r, tail) && (r.pc.WriteBase? || r.pc.WriteBlock? || r.pc.StoreFront?)
    ensures r.headers != [] && r.front < |r.Current().entries| && r.size > 0
    ensures r.pc.WriteBlock? ==> r.pc.op.need > 0
  {
    hide SlotOf;
    assert r.headers != [] ==> HeaderOk(r.Current(), r.starts);
  }

  /// The assertions of the producer: the head has not passed the first index of the block it is
  /// about to get; where it begins to construct it has a block for the tail, unless it has nothing
  /// to construct; and while it has not reached its last block it has one to go on from.
  lemma ProducerAsserts<T>(s: State<T>)
    requires Inv(s)
    ensures s.ring.pc.CheckFull? ==> !CircularLessThan(s.ring.pc.op.base, Wrap(s.claims.head))
    ensures s.ring.pc.Choose? && s.ring.pc.op.need == 0 ==>
              Wrap(s.claims.tail) % BLOCK_SIZE != 0 || s.ring.pc.op.first.Some? || s.ring.pc.op.values == []
    ensures s.ring.pc.Construct? && (s.ring.pc.k != s.ring.pc.stop || s.ring.tailBlock != s.ring.pc.end) ==>
              s.ring.tailBlock.Some?
  {
    hide Inv;
    var r, head, tail := s.ring, s.claims.head, s.claims.tail;
    RingHasInv(s);
    HeadInRing(s);
    if r.pc.CheckFull? {
      ChecksFull(r, tail, head);
    } else if r.pc.Choose? {
      WrapModulo(tail, BLOCK_SIZE);
      ChoosesEnough(r, tail);
    } else if r.pc.Construct? {
      ConstructsInRing(r, tail);
    }
  }

  /// Blocks that have left the ring lie behind the head.
  lemma HeadInRing<T>(s: State<T>)
    requires Inv(s)
    ensures s.ring.Oldest() * BLOCK_SIZE <= s.claims.head <= s.claims.tail
  {
    hide SlotOf, RingInv, HeadersOk, FlagsOk, ElemsOk, JobsOk, ValuesOk, ScanOk, Claims.Inv;
    Claims.OutstandingBelowTail(s.claims, []);
    var lo := s.ring.Oldest();
    if lo > 0 {
      var k := lo * BLOCK_SIZE - 1;
      assert k / BLOCK_SIZE == lo - 1 < lo;
      assert k in s.done;
    }
  }

  lemma ChecksFull<T>(r: Ring<T>, tail: nat, head: nat)
    requires RingInv(r, tail) && r.pc.CheckFull? && r.Oldest() * BLOCK_SIZE <= head <= tail
    ensures !CircularLessThan(r.pc.op.base, Wrap(head))
  {
    hide SlotOf, RingOk, HeadersOk;
    var base := |r.starts| * BLOCK_SIZE;
    assert 0 <= base - head <= HALF;
    WrapDifference(base, head);
    WrapSmall(base - head);
  }

  lemma ChoosesEnough<T>(r: Ring<T>, tail: nat)
    requires RingInv(r, tail) && r.pc.Choose?
    ensures r.pc.op.need == 0 ==> tail % BLOCK_SIZE != 0 || r.pc.op.first.Some? || r.pc.op.values == []
  {
    hide SlotOf, RingOk, HeadersOk;
  }

  lemma ConstructsInRing<T>(r: Ring<T>, tail: nat)
    requires RingInv(r, tail) && r.pc.Construct?
    ensures r.pc.k != r.pc.stop || r.tailBlock != r.pc.end ==> r.tailBlock.Some?
  {
    hide SlotOf, RingOk, HeadersOk;
  }

  // ---- lookup

  /// Whatever index a consumer has loaded, and however often it has been doubled or its slots
  /// reused since, the lookup ends at the block in which the producer constructed the element.
  lemma LookupIsCorrect<T>(s: State<T>, schedule: Schedule<T>, t: Thread)
    requires Init(s) && NoWrapAround(s, schedule) && Run(s, schedule).Cpc(t).MoveOut?
    ensures var e := Run(s, schedule); var p := e.Cpc(t);
            p.block == BlockAt(e.ring.starts, p.begin / BLOCK_SIZE)
            && (p.i != StopIndex(p.begin, p.first + p.n) ==>
                  var key := (p.block, p.i % BLOCK_SIZE);
                  p.i < |e.values| && key in e.elems && e.elems[key] == e.values[p.i])
  {
    hide Inv;
    InitHasInv(s);
    RunKeepsInv(s, schedule);
    var e := Run(s, schedule);
    JobAt(e, t);
    if e.Cpc(t).i != StopIndex(e.Cpc(t).begin, e.Cpc(t).first + e.Cpc(t).n) { ElementIsThere(e, t); }
  }

  /// The assertions in `set_empty` and `set_many_empty`: a flag about to be set is not set yet.
  lemma FlagNotYetSet<T>(s: State<T>, t: Thread)
    requires Inv(s) && s.Cpc(t).SetFlag? && s.Cpc(t).m != s.Cpc(t).end - s.Cpc(t).begin
    ensures var p := s.Cpc(t); var i := FlagIndex(p.begin, p.end) + p.m;
            0 <= i < BLOCK_SIZE && !FlagsOf(s.flags, p.block)[i]
  {
    hide SlotOf, RingOk, HeadersOk, ElemsOk, GotOk, RingPcOk, ValuesOk, ScanOk, Claims.Inv;
    var p := s.Cpc(t);
    JobAt(s, t);
    var e := SetFlagJob(p, s.ring.headers, s.ring.starts, s.got, s.done);
    ClaimedIsLive(s, t, e);
    RingFacts(s.ring, s.claims.tail);
    assert FlagAt(s.flags, s.ring.starts, e) <==> e in s.done || ResetUpTo(s.ring) <= e / BLOCK_SIZE;
  }

  // ---- first in, first out, exactly once

  /// What the completed enqueue operations of a run passed in, in order.
  function Published<T>(s: State<T>, schedule: Schedule<T>): seq<T>
    decreases |schedule|
  {
    if schedule == [] then []
    else
      (if schedule[0].0.Producer? && s.ring.pc.StoreTail? then s.ring.pc.op.values else [])
      + Published(Move(s, schedule[0]), schedule[1..])
  }

  /// An operation in progress enqueues the values it was called with.
  lemma OperationKeepsValues<T>(s: State<T>, m: (Actor, Request<T>))
    ensures var p, p' := s.ring.pc, Move(s, m).ring.pc;
            p'.Resting? || (p.Resting? && m.0.Producer? && m.1.Enqueue? && p'.op.values == m.1.values)
                || (!p.Resting? && p'.op.values == p.op.values)
  {
    hide RingStep, StepFlags, Claims.Step;
    if m.0.Producer? {
      RingKeepsValues(s.ring, s.claims.tail, s.claims.head, FlagsOf(s.flags, s.ring.Next(s.ring.Tail())), m.1);
    }
  }

  lemma RingKeepsValues<T>(r: Ring<T>, tail: nat, head: nat, empty: seq<bool>, q: Request<T>)
    requires |empty| == BLOCK_SIZE
    ensures var p, p' := r.pc, RingStep(r, tail, head, empty, q).pc;
            p'.Resting? || (p.Resting? && q.Enqueue? && p'.op.values == q.values)
                || (!p.Resting? && p'.op.values == p.op.values)
  {
    hide StopIndex, BlocksNeeded, FirstBase, GrownEntries, CircularLessThan, Wrap, Retire, LinkBlock;
    var p' := RingStep(r, tail, head, empty, q).pc;
    match r.pc {
      case Resting => assert p'.Resting? || p'.Choose?;
      case Choose(op) => assert p'.Choose? || p'.Construct? || p'.ResetBlocks? || p'.Scan? || p'.CheckFull?;
      case Scan(op, i) => assert p'.Scan? || p'.WriteBase? || p'.CheckFull?;
      case CheckFull(op) => assert p'.Resting? || p'.CheckFull? || p'.Grow? || p'.Requisition?;
      case Grow(op) => assert p'.Resting? || p'.Grow? || p'.Requisition?;
      case Requisition(op) => assert p'.Resting? || p'.WriteBase? || p'.Requisition?;
      case WriteBase(op) => assert p'.WriteBase? || p'.WriteBlock?;
      case WriteBlock(op) => assert p'.Choose? || p'.StoreFront? || p'.WriteBlock?;
      case ResetBlocks(op, _, _) => assert p'.ResetBlocks? || p'.StoreFront?;
      case StoreFront(op) => assert p'.Construct? || p'.StoreFront?;
      case Construct(op, _, _, _, _) => assert p'.Construct? || p'.StoreTail?;
      case StoreTail(op) => assert p'.Resting?;
    }
  }

  lemma PublishStep<T>(s: State<T>, m: (Actor, Request<T>))
    requires Inv(s) && Inv(Move(s, m))
    ensures var e := Move(s, m);
            && s.claims.tail <= |s.values| && e.claims.tail <= |e.values| && s.values <= e.values
            && e.values[..e.claims.tail]
               == s.values[..s.claims.tail] +
                   (if m.0.Producer? && s.ring.pc.StoreTail? then s.ring.pc.op.values else [])
  {
    hide Inv, ProducerStep, Claims.Step;
    TailWithin(s);
    if m.0.Producer? {
      ProducerPublishes(s, m.1);
    } else if m.0.thread in s.claims.pc {
      Claims.StepEffect(s.claims, m.0.thread, if m.1.Dequeue? then Claims.Dequeue(m.1.max) else Claims.Go);
    }
  }

  lemma ProducerPublishes<T>(s: State<T>, q: Request<T>)
    requires s.claims.tail <= |s.values| && ValuesOk(s.ring, s.claims.tail, s.values)
    ensures var e := ProducerStep(s, q);
            && e.claims.tail <= |e.values| && s.values <= e.values
            && e.values[..e.claims.tail] ==
                  s.values[..s.claims.tail] + (if s.ring.pc.StoreTail? then s.ring.pc.op.values else [])
  {
    hide RingStep, StepFlags;
    var e, tail := ProducerStep(s, q), s.claims.tail;
    assert s.values[..tail] + s.values[tail..] == s.values;
    if s.ring.pc.StoreTail? {
      assert e.values[..e.claims.tail] == s.values;
    } else {
      assert e.claims.tail == tail;
    }
  }

  lemma {:induction false} PublishedInOrder<T>(s: State<T>, schedule: Schedule<T>)
    requires Inv(s) && NoWrapAround(s, schedule)
    ensures var e := Run(s, schedule);
            s.claims.tail <= |s.values| && e.claims.tail <= |e.values| && s.values <= e.values
            && e.values[..e.claims.tail] == s.values[..s.claims.tail] + Published(s, schedule)
    decreases |schedule|
  {
    hide Inv, Move;
    if schedule == [] {
      assert Inv(s) ==> s.claims.tail <= |s.values| by { TailWithin(s); }
      assert s.values[..s.claims.tail] + [] == s.values[..s.claims.tail];
    } else {
      MoveKeepsInv(s, schedule[0]);
      PublishStep(s, schedule[0]);
      PublishedInOrder(Move(s, schedule[0]), schedule[1..]);
    }
  }

  lemma TailWithin<T>(s: State<T>)
    requires Inv(s)
    ensures s.claims.tail <= |s.values| && ValuesOk(s.ring, s.claims.tail, s.values)
  {
    hide RingInv, FlagsOk, ElemsOk, GotOk, JobsOk, ScanOk, Claims.Inv;
  }

  /// A move delivers at most one element, which nobody got before: the one at its index, taken
  /// out of the place where it was constructed.  What has been delivered stays delivered.
  lemma DeliveredOnce<T>(s: State<T>, m: (Actor, Request<T>), k: nat)
    requires Inv(s)
    ensures var e := Move(s, m);
            && (k in s.got ==> k in e.got && e.got[k] == s.got[k])
            && (k in e.got && k !in s.got ==>
                  k < s.claims.head && k < |s.values| && e.got[k] == s.values[k]
                  && Home(s.ring.starts, k) in s.elems && s.elems[Home(s.ring.starts, k)] == s.values[k]
                  && e.elems == s.elems - {Home(s.ring.starts, k)})
  {
    hide Inv, Home, RingStep, StepFlags, StopIndex, Claims.Step;
    if m.0.Consumer? && m.0.thread in s.claims.pc {
      var t := m.0.thread;
      var p := s.Cpc(t);
      if p.MoveOut? && p.i != StopIndex(p.begin, p.first + p.n) {
        JobAt(s, t);
        ElementIsThere(s, t);
        MoveOutIndex(p, s.ring.headers, s.ring.starts, s.got, s.done);
      }
    }
  }

  /// First in, first out: in every run the consumer of index k got the k-th value enqueued.
  lemma FirstInFirstOut<T>(s: State<T>, schedule: Schedule<T>, k: nat)
    requires Init(s) && NoWrapAround(s, schedule)
    requires k in Run(s, schedule).got
    ensures k < Run(s, schedule).claims.head <= |Published(s, schedule)|
    ensures Run(s, schedule).got[k] == Published(s, schedule)[k]
  {
    hide Move, RingInv, JobsOk, ElemsOk, FlagsOk, ScanOk, ValuesOk;
    InitHasInv(s);
    RunKeepsInv(s, schedule);
    PublishedInOrder(s, schedule);
    var e := Run(s, schedule);
    Claims.OutstandingBelowTail(e.claims, []);
    assert e.values[..e.claims.tail] == Published(s, schedule);
  }

  // ---- conservation

  /// Every index below the head has been dealt with or is being dealt with by a consumer.
  ghost predicate Accounted<T>(s: State<T>) {
    forall k: nat | k < s.claims.head && k !in s.done :: exists t :: InJob(s.Cpc(t), k)
  }

  /// A consumer keeps its claim until it has finished with every index of it.
  lemma ConsumerKeepsJob<T>(s: State<T>, t: Thread, q: Request<T>, k: nat)
    requires JobOk(s.Cpc(t), s.ring.headers, s.ring.starts) && ProgressOk(s.Cpc(t), s.got, s.done)
    requires t in s.claims.pc && InJob(s.Cpc(t), k)
    ensures InJob(ConsumerStep(s, t, q).Cpc(t), k) || k in s.done
  {
    hide SlotOf, ClaimStep;
    if s.Cpc(t).SetFlag? { assert k in s.done <==> Flagged(s.Cpc(t), k); }
  }

  lemma MoveIsLocal<T>(s: State<T>, m: (Actor, Request<T>), u: Thread)
    requires m.0 != Consumer(u)
    ensures Move(s, m).Cpc(u) == s.Cpc(u)
  {}

  lemma MoveKeepsDone<T>(s: State<T>, m: (Actor, Request<T>), k: nat)
    ensures k in s.done ==> k in Move(s, m).done
  {}

  lemma MoveGrantsHead<T>(s: State<T>, m: (Actor, Request<T>), k: nat)
    requires Inv(s)
    requires s.claims.head <= k < Move(s, m).claims.head
    ensures m.0.Consumer? && InJob(Move(s, m).Cpc(m.0.thread), k)
  {
    hide RingStep, StepFlags, Inv;
    if m.0.Consumer? {
      assert m.0.thread in s.claims.pc;
      assert s.Cpc(m.0.thread).Idle?;
      Claims.StepEffect(s.claims, m.0.thread, if m.1.Dequeue? then Claims.Dequeue(m.1.max) else Claims.Go);
    }
  }

  lemma MoveKeepsAccount<T>(s: State<T>, m: (Actor, Request<T>))
    requires Inv(s) && Accounted(s)
    ensures Accounted(Move(s, m))
  {
    hide Inv, Move, ConsumerStep, InJob;
    var e := Move(s, m);
    forall k: nat | k < e.claims.head && k !in e.done ensures exists t :: InJob(e.Cpc(t), k) {
      MoveKeepsDone(s, m, k);
      if k < s.claims.head {
        var t :| InJob(s.Cpc(t), k);
        if m.0 == Consumer(t) { KeepsJob(s, m, k); } else { MoveIsLocal(s, m, t); }
        assert InJob(e.Cpc(t), k);
      } else {
        MoveGrantsHead(s, m, k);
        assert InJob(e.Cpc(m.0.thread), k);
      }
    }
  }

  lemma KeepsJob<T>(s: State<T>, m: (Actor, Request<T>), k: nat)
    requires Inv(s) && m.0.Consumer? && InJob(s.Cpc(m.0.thread), k) && k !in s.done
    ensures InJob(Move(s, m).Cpc(m.0.thread), k)
  {
    hide Inv, ConsumerStep, InJob;
    JobAt(s, m.0.thread);
    if m.0.thread in s.claims.pc { ConsumerKeepsJob(s, m.0.thread, m.1, k); }
  }

  lemma {:induction false} RunKeepsAccount<T>(s: State<T>, schedule: Schedule<T>)
    requires Inv(s) && Accounted(s) && NoWrapAround(s, schedule)
    ensures Accounted(Run(s, schedule))
    decreases |schedule|
  {
    hide Inv, Move, Accounted;
    if schedule != [] {
      MoveKeepsInv(s, schedule[0]);
      MoveKeepsAccount(s, schedule[0]);
      RunKeepsAccount(Move(s, schedule[0]), schedule[1..]);
    }
  }

  ghost predicate Quiescent<T>(s: State<T>) {
    s.ring.pc.Resting? && Claims.Quiescent(s.claims) && forall t: Thread :: s.Cpc(t).Idle?
  }

  /// Conservation: with no operation in progress, the elements below the head have all been
  /// delivered, and the elements in memory are exactly those from the head to the tail, each
  /// in its own place.
  lemma NothingLost<T>(s: State<T>, schedule: Schedule<T>)
    requires Init(s) && NoWrapAround(s, schedule) && Quiescent(Run(s, schedule))
    ensures var e := Run(s, schedule);
            && e.claims.optimistic - e.claims.overcommit == e.claims.head <= e.claims.tail == |Published(s, schedule)|
            && (forall k: nat | k < e.claims.head :: k in e.got && e.got[k] == Published(s, schedule)[k])
            && (forall k: nat | e.claims.head <= k < e.claims.tail ::
                  Home(e.ring.starts, k) in e.elems && e.elems[Home(e.ring.starts, k)] == Published(s, schedule)[k])
            && (forall k: nat, l: nat | e.claims.head <= k < l < e.claims.tail ::
                  Home(e.ring.starts, k) != Home(e.ring.starts, l))
            && (forall x <- e.elems ::
                  exists k: nat :: e.claims.head <= k < e.claims.tail && x == Home(e.ring.starts, k))
  {
    hide Inv, Move, Run, Published, NoWrapAround;
    InitHasInv(s);
    RunKeepsInv(s, schedule);
    RunKeepsAccount(s, schedule);
    PublishedInOrder(s, schedule);
    var e := Run(s, schedule);
    Settled(e);
    assert e.values == Published(s, schedule);
  }

  lemma Settled<T>(e: State<T>)
    requires Inv(e) && Accounted(e) && Quiescent(e)
    ensures e.claims.optimistic - e.claims.overcommit == e.claims.head <= e.claims.tail == |e.values|
    ensures forall k: nat | k < e.claims.head :: k in e.got && e.got[k] == e.values[k]
    ensures forall k: nat | e.claims.head <= k < e.claims.tail ::
                  Home(e.ring.starts, k) in e.elems && e.elems[Home(e.ring.starts, k)] == e.values[k]
    ensures forall k: nat, l: nat | e.claims.head <= k < l < e.claims.tail ::
              Home(e.ring.starts, k) != Home(e.ring.starts, l)
    ensures forall x <- e.elems :: exists k: nat :: e.claims.head <= k < e.claims.tail && x == Home(e.ring.starts, k)
  {
    hide SlotOf, HeadersOk, FlagsOk, JobsOk, ScanOk, Claims.Inv, RingPcOk, ValuesOk;
    Claims.SettledCounters(e.claims);
    assert |e.values| == e.claims.tail by { ValuesAtTail(e.ring, e.claims.tail, e.values); }
    ValuesFit(e.ring, e.claims.tail, e.values);
    var starts, lo := e.ring.starts, e.ring.Oldest();
    forall k: nat, l: nat | e.claims.head <= k < l < e.claims.tail ensures Home(starts, k) != Home(starts, l) {
      assert k !in e.done && l !in e.done;
      HomesDiffer(starts, e.ring.slotsUsed, e.ring.next, k, l);
    }
    forall x | x in e.elems ensures exists k: nat :: e.claims.head <= k < e.claims.tail && x == Home(starts, k) {
      var j :| lo <= j < |starts| && BlockAt(starts, j) == x.0;
      var k := j * BLOCK_SIZE + x.1;
      assert Home(starts, k) == x;
    }
  }

  // ------------------------------------------------ the index in memory

  lemma NextCopied(front: nat, used: nat, j: nat, n: nat)
    requires 0 < n && PowerOfTwo(n) && n <= HALF && front < n && 0 <= j < used <= n
    ensures Wrap((front - used + j) % n + 1) % n == (front - used + j + 1) % n
    ensures (front - used + j + 1) % n == front <==> j + 1 == used
  {
    PowersDivideWord(n);
    WrapModulo((front - used + j) % n + 1, n);
    ModuloTwice(front - used + j, n);
    ModuloSum(front - used + j, 1, (front - used + j) % n, 1, n);
    ModuloUnique(front, 0, front, n);
    if j + 1 < used { ModuloDistinct(front - used + j + 1, front, n); }
  }

  /// The array part of `new_block_index`; `j` is the new front.
  method NewBlockIndex(old_: array<Entry>, front: nat, used: nat) returns (entries: array<Entry>, j: nat)
    requires 0 < old_.Length && used <= old_.Length && front < old_.Length
    requires PowerOfTwo(old_.Length) && old_.Length <= HALF
    ensures fresh(entries) && j == used
    ensures entries[..] == GrownEntries(old_[..], front, used)
  {
    var n := old_.Length;
    entries := new Entry[2 * n](_ => Entry(0, 0));
    j := 0;
    if used != 0 {
      PowersDivideWord(n);
      WrapModulo(front - used, n);
      var i := Wrap(front - used) % n;
      var again := true;
      while again
        invariant 0 <= j <= used && i == (front - used + j) % n
        invariant again <==> j < used
        invariant forall k | 0 <= k < 2 * n :: entries[k] == if k < j then old_[(front - used + k) % n] else Entry(0, 0)
        decreases used - j
      {
        NextCopied(front, used, j, n);
        entries[j] := old_[i];
        j := j + 1;
        i := Wrap(i + 1) % n;
        again := i != front;
      }
    }
  }

  // ---------------------------------------------------------- destruction

  /// The ring when no operation is in progress.
  ghost predicate RestsAt<T>(e: State<T>) {
    var r, head, tail := e.ring, e.claims.head, e.claims.tail;
    && head <= tail && |r.starts| == CeilBlocks(tail) && r.tailBlock == LastBlock(r.starts, |r.starts|)
    && 0 <= r.Oldest() <= |r.starts| && (|r.starts| > 0 ==> r.Oldest() < |r.starts|) && r.Oldest() * BLOCK_SIZE <= head
    && (forall k: nat | r.Oldest() <= k / BLOCK_SIZE < |r.starts| :: FlagAt(e.flags, r.starts, k) <==> k < head)
  }

  lemma RingRests<T>(e: State<T>)
    requires Inv(e) && Accounted(e) && Quiescent(e)
    ensures RestsAt(e)
  {
    hide SlotOf, HeadersOk, ElemsOk, ScanOk, ValuesOk, Claims.Inv, FlagAt, JobsOk;
    var r, head := e.ring, e.claims.head;
    Claims.SettledCounters(e.claims);
    forall k: nat | k < head ensures k in e.done { assert forall t :: !InJob(e.Cpc(t), k); }
    if r.Oldest() > 0 {
      var k := r.Oldest() * BLOCK_SIZE - 1;
      assert k / BLOCK_SIZE < r.Oldest() && k in e.done;
    }
  }

  lemma RestFacts<T>(e: State<T>)
    requires RestsAt(e)
    ensures var r := e.ring;
            && e.claims.head <= e.claims.tail && |r.starts| == CeilBlocks(e.claims.tail)
            && r.tailBlock == LastBlock(r.starts, |r.starts|)
            && 0 <= r.Oldest() && (|r.starts| > 0 ==> r.Oldest() < |r.starts|)
            && (|r.starts| == 0 ==> r.Oldest() == 0 && e.claims.tail == 0)
            && r.Oldest() * BLOCK_SIZE <= e.claims.head
  {}

  lemma BlockIsEmpty<T>(e: State<T>, j: nat)
    requires RestsAt(e) && e.ring.Oldest() <= j < |e.ring.starts|
    ensures FlagsOf(e.flags, e.ring.starts[j]) == AllFlags(true) <==> (j + 1) * BLOCK_SIZE <= e.claims.head
  {
    var f := FlagsOf(e.flags, e.ring.starts[j]);
    forall b {:trigger f[b]} | 0 <= b < BLOCK_SIZE
      ensures f[b] <==> j * BLOCK_SIZE + (BLOCK_SIZE - 1 - b) < e.claims.head {
      var k := j * BLOCK_SIZE + (BLOCK_SIZE - 1 - b);
      assert k / BLOCK_SIZE == j && k % BLOCK_SIZE == BLOCK_SIZE - 1 - b;
      assert FlagAt(e.flags, e.ring.starts, k) <==> k < e.claims.head;
    }
    assert f[0] <==> j * BLOCK_SIZE + BLOCK_SIZE - 1 < e.claims.head;
    assert f == AllFlags(true) ==> f[0];
  }

  /// The index lists the blocks of the ring.
  lemma IndexAtRest<T>(e: State<T>, q: nat)
    requires Inv(e) && Quiescent(e) && e.ring.Oldest() <= q < |e.ring.starts|
    ensures e.ring.headers != []
    ensures var r := e.ring; var h := r.Current();
            && h.size == r.size == |h.entries| && r.size * BLOCK_SIZE <= HALF && PowerOfTwo(r.size)
                  && r.slotsUsed <= r.size
            && r.front == SlotOf(|r.starts|, h.origin, r.size)
            && h.entries[SlotOf(q, h.origin, r.size)] == Entry(Wrap(q * BLOCK_SIZE), r.starts[q])
  {
    hide SlotOf, RingOk, FlagsOk, ElemsOk, GotOk, JobsOk, ScanOk, ValuesOk, Claims.Inv;
    var h := e.ring.Current();
    assert HeaderOk(h, e.ring.starts);
    assert EntryAt(h, q) == Entry(Wrap(q * BLOCK_SIZE), BlockAt(e.ring.starts, q));
  }

  lemma OldestSlot(front: nat, c: nat, used: nat, origin: int, size: nat)
    requires size > 0 && PowerOfTwo(size) && size <= HALF && front == SlotOf(c, origin, size)
    ensures Wrap(front - used) % size == SlotOf(c - used, origin, size)
  {
    PowersDivideWord(size);
    WrapModulo(front - used, size);
    ModuloTwice(c - origin, size);
    ModuloSum(c - origin, 0 - used, front, 0 - used, size);
  }

  lemma EndsBefore(q: nat, head: nat)
    requires -HALF < (q + 1) * BLOCK_SIZE - head < HALF
    ensures CircularLessThan(Wrap(Wrap(q * BLOCK_SIZE) + BLOCK_SIZE), Wrap(head)) <==> (q + 1) * BLOCK_SIZE < head
  {
    WrapDifference(q * BLOCK_SIZE, 0 - BLOCK_SIZE);
    CircularLessThanIsLess((q + 1) * BLOCK_SIZE, head);
  }

  /// The block that has been dequeued in part, found in the index.
  method FindHalfDequeued<T>(e: State<T>) returns (block: Block)
    requires Inv(e) && Quiescent(e) && RestsAt(e) && e.claims.head % BLOCK_SIZE != 0
    ensures e.claims.head / BLOCK_SIZE < |e.ring.starts| && block == e.ring.starts[e.claims.head / BLOCK_SIZE]
  {
    hide SlotOf, Inv, Quiescent, CircularLessThan, Wrap, LastBlock, FlagAt;
    ghost var r, head, q := e.ring, e.claims.head, e.ring.Oldest();
    IndexAtRest(e, q);
    ghost var origin := e.ring.Current().origin;
    OldestSlot(r.front, |r.starts|, r.slotsUsed, origin, r.size);
    var i := Wrap(e.ring.front - e.ring.slotsUsed) % e.ring.size;
    EndsBefore(q, head);
    while CircularLessThan(Wrap(e.ring.Current().entries[i].base + BLOCK_SIZE), Wrap(e.claims.head))
      invariant r.Oldest() <= q <= head / BLOCK_SIZE < |r.starts| && i == SlotOf(q, origin, r.size)
      invariant e.ring.Current().entries[i] == Entry(Wrap(q * BLOCK_SIZE), r.starts[q])
      invariant CircularLessThan(Wrap(Wrap(q * BLOCK_SIZE) + BLOCK_SIZE), Wrap(head)) <==> (q + 1) * BLOCK_SIZE < head
      decreases head / BLOCK_SIZE - q
    {
      NextFront(i, q + 1, origin, r.size);
      i := Wrap(i + 1) % e.ring.size;
      q := q + 1;
      IndexAtRest(e, q);
      EndsBefore(q, head);
    }
    block := e.ring.Current().entries[i].block;
  }

  lemma BlockDestroyed(starts: seq<Block>, a: nat, b: nat, c: nat)
    requires a <= b <= c
    ensures Homes(starts, a, b) + Homes(starts, b, c) == Homes(starts, a, c)
  {}

  /// Up to which index the elements are destroyed once the blocks before number j are done with.
  function DestroyedUpTo(j: int, head: nat, tail: nat): nat
    requires head <= tail
  {
    if j * BLOCK_SIZE <= head then head else if j * BLOCK_SIZE <= tail then j * BLOCK_SIZE else tail
  }

  /// Where the destruction in block j begins and ends.
  lemma BlockRange(j: nat, c: nat, head: nat, tail: nat)
    requires head <= tail && c == CeilBlocks(tail) && j < c && (j + 1) * BLOCK_SIZE > head
    ensures DestroyedUpTo(j, head, tail) == j * BLOCK_SIZE + (if j == head / BLOCK_SIZE then head % BLOCK_SIZE else 0)
    ensures DestroyedUpTo(j + 1, head, tail)
            == j * BLOCK_SIZE + (if j == c - 1 && tail % BLOCK_SIZE != 0 then tail % BLOCK_SIZE else BLOCK_SIZE)
    ensures DestroyedUpTo(j, head, tail) <= DestroyedUpTo(j + 1, head, tail)
  {}

  /// The elements of one block from `begin` on, up to its end or the tail.
  method DestroyBlock(block: Block, begin: nat, isTail: bool, lastValid: nat, ghost starts: seq<Block>, ghost j: nat)
      returns (places: seq<(Block, nat)>)
    requires begin <= (if isTail then lastValid else BLOCK_SIZE) && lastValid <= BLOCK_SIZE
              && block == BlockAt(starts, j)
    ensures places == Homes(starts, j * BLOCK_SIZE + begin, j * BLOCK_SIZE + (if isTail then lastValid else BLOCK_SIZE))
  {
    places := [];
    var i := begin;
    while i != BLOCK_SIZE && (!isTail || i != lastValid)
      invariant begin <= i <= (if isTail then lastValid else BLOCK_SIZE)
      invariant places == Homes(starts, j * BLOCK_SIZE + begin, j * BLOCK_SIZE + i)
      decreases BLOCK_SIZE - i
    {
      assert Home(starts, j * BLOCK_SIZE + i) == (block, i);
      places := places + [(block, i)];
      i := i + 1;
    }
  }

  /// Destroying what has not been dequeued: exactly the elements from the head to the tail, each
  /// once, in order.
  method DestroyElements<T>(e: State<T>) returns (destroyed: seq<(Block, nat)>)
    requires Inv(e) && Accounted(e) && Quiescent(e)
    ensures destroyed == Homes(e.ring.starts, e.claims.head, e.claims.tail)
  {
    hide SlotOf, Inv, Quiescent, Accounted, FlagsOf, AllFlags, RestsAt, DestroyedUpTo, Homes;
    RingRests(e);
    RestFacts(e);
    ghost var r, head, tail, c := e.ring, e.claims.head, e.claims.tail, |e.ring.starts|;
    DestroyedEnds(r.Oldest(), head, tail, r.starts);
    destroyed := [];
    if e.ring.tailBlock == None { return; }
    var half := None;
    WrapModulo(head, BLOCK_SIZE);
    WrapModulo(tail, BLOCK_SIZE);
    if Wrap(e.claims.head) % BLOCK_SIZE != 0 {
      var b := FindHalfDequeued(e);
      half := Some(b);
    }
    var lastValid := if Wrap(e.claims.tail) % BLOCK_SIZE == 0 then BLOCK_SIZE else Wrap(e.claims.tail) % BLOCK_SIZE;
    var block := e.ring.tailBlock.value;
    ghost var j: nat := r.Oldest();
    var again := true;
    while again
      invariant r.Oldest() <= j <= c && (again <==> j < c)
      invariant block == r.starts[if j == r.Oldest() then c - 1 else j - 1]
      invariant destroyed == Homes(r.starts, head, DestroyedUpTo(j, head, tail))
      decreases c - j
    {
      StepInRing(e, if j == r.Oldest() then c - 1 else j - 1, j);
      block := e.ring.Next(block);
      BlockIsEmpty(e, j);
      PassedBlock(j, head, tail);
      if FlagsOf(e.flags, block) != AllFlags(true) {
        BlockRange(j, c, head, tail);
        HalfIs(e, j, half);
        var begin := if half == Some(block) then Wrap(e.claims.head) % BLOCK_SIZE else 0;
        var places := DestroyBlock(block, begin, block == e.ring.tailBlock.value, lastValid, r.starts, j);
        BlockDestroyed(r.starts, head, DestroyedUpTo(j, head, tail), DestroyedUpTo(j + 1, head, tail));
        destroyed := destroyed + places;
      }
      j := j + 1;
      again := block != e.ring.tailBlock.value;
    }
  }

  lemma DestroyedEnds(oldest: nat, head: nat, tail: nat, starts: seq<Block>)
    requires oldest * BLOCK_SIZE <= head <= tail
    ensures DestroyedUpTo(oldest, head, tail) == head && DestroyedUpTo(CeilBlocks(tail), head, tail) == tail
    ensures Homes(starts, head, head) == []
  {}

  /// A block whose elements are all gone is passed over.
  lemma PassedBlock(j: nat, head: nat, tail: nat)
    requires head <= tail
    ensures (j + 1) * BLOCK_SIZE <= head ==> DestroyedUpTo(j + 1, head, tail) == DestroyedUpTo(j, head, tail)
  {}

  /// The block after that of number i in the ring is that of number j, and only the last is the tail block.
  lemma StepInRing<T>(e: State<T>, i: nat, j: nat)
    requires Inv(e) && RestsAt(e) && e.ring.Oldest() <= j < |e.ring.starts|
    requires i == if j == e.ring.Oldest() then |e.ring.starts| - 1 else j - 1
    ensures e.ring.Next(e.ring.starts[i]) == e.ring.starts[j]
    ensures e.ring.starts[j] == e.ring.starts[|e.ring.starts| - 1] <==> j == |e.ring.starts| - 1
  {
    hide SlotOf, HeadersOk, FlagsOk, ElemsOk, GotOk, JobsOk, ScanOk, ValuesOk, RingPcOk, Claims.Inv;
    NextInRing(e.ring, i);
    NextInRing(e.ring, j);
  }

  lemma HalfIs<T>(e: State<T>, j: nat, half: Option<Block>)
    requires Inv(e) && RestsAt(e) && e.ring.Oldest() <= j < |e.ring.starts| && (j + 1) * BLOCK_SIZE > e.claims.head
    requires half == None <==> e.claims.head % BLOCK_SIZE == 0
    requires half != None ==>
              e.claims.head / BLOCK_SIZE < |e.ring.starts| && half == Some(e.ring.starts[e.claims.head / BLOCK_SIZE])
    ensures half == Some(e.ring.starts[j]) <==> e.claims.head % BLOCK_SIZE != 0 && j == e.claims.head / BLOCK_SIZE
  {
    hide SlotOf, HeadersOk, FlagsOk, ElemsOk, GotOk, JobsOk, ScanOk, ValuesOk, RingPcOk, Claims.Inv;
    var q := e.claims.head / BLOCK_SIZE;
    if half != None && q < j { assert BlockAt(e.ring.starts, q) != BlockAt(e.ring.starts, j); }
  }

  /// Returning the blocks of the ring to the pool, each once.
  method ReturnBlocks<T>(e: State<T>) returns (returned: seq<Block>)
    requires Inv(e) && Accounted(e) && Quiescent(e)
    ensures var r := e.ring; var c := |r.starts|;
            0 <= r.Oldest() <= c
            && returned == if c == 0 then [] else [r.starts[c - 1]] + r.starts[r.Oldest()..c - 1]
  {
    hide SlotOf, Inv, Quiescent, Accounted, RestsAt;
    RingRests(e);
    RestFacts(e);
    ghost var r, c := e.ring, |e.ring.starts|;
    returned := [];
    if e.ring.tailBlock == None { return; }
    var block := e.ring.tailBlock.value;
    ghost var j: nat := r.Oldest();
    var again := true;
    while again
      invariant r.Oldest() <= j <= c && (again <==> j < c)
      invariant block == r.starts[if j == r.Oldest() then c - 1 else j - 1]
      invariant returned == if j == r.Oldest() then [] else [r.starts[c - 1]] + r.starts[r.Oldest()..j - 1]
      decreases c - j
    {
      StepInRing(e, if j == r.Oldest() then c - 1 else j - 1, j);
      var nextBlock := e.ring.Next(block);
      returned := returned + [block];
      block := nextBlock;
      j := j + 1;
      again := block != e.ring.tailBlock.value;
    }
  }

  /// These are the elements in memory, each once.
  lemma DestroyedAreLeft<T>(e: State<T>, x: (Block, nat))
    requires Inv(e) && Accounted(e) && Quiescent(e)
    ensures var places := Homes(e.ring.starts, e.claims.head, e.claims.tail);
            && e.claims.head <= e.claims.tail
            && (x in places <==> x in e.elems)
            && (forall i, j | 0 <= i < j < |places| :: places[i] != places[j])
  {
    hide Inv, Accounted, Quiescent, Home;
    Settled(e);
    var places := Homes(e.ring.starts, e.claims.head, e.claims.tail);
    if x in e.elems {
      var k: nat :| e.claims.head <= k < e.claims.tail && x == Home(e.ring.starts, k);
      assert places[k - e.claims.head] == x;
    }
  }
}
