/// The sub-queue of an implicit producer (concurrentqueue.h, ImplicitProducer): blocks taken
/// from and returned to the pool one by one, an index of them that is replaced by one of twice
/// the capacity when it is full, one producer and any number of consumers, one atomic operation
/// per step.
///
/// `starts`, `entryAt`, `values`, `got`, `done`, `closer`, `cleared`, `freed`, `owned` and the
/// fields of headers and program counters marked so are history variables.
module ImplicitProducer {
  import Claims
  import opened Index
  import opened SubQueue
  import opened Wrappers

  /// The address of an index entry, which all the indices that list it share.
  type Entry = nat

  const INVALID_BLOCK_BASE: nat := 1
  const IMPLICIT_INITIAL_INDEX_SIZE: nat := 32

  datatype Header = Header(
    capacity: nat,
    tail: nat,
    index: seq<Entry>,
    // history, in block numbers: the one at slot 0, the oldest and the newest listed ones
    // (exclusive), the one after that at `tail`, and the one after the last published
    origin: nat,
    low: nat,
    top: nat,
    at: nat,
    shown: nat)

  /// The local variables of an enqueue in progress; `enqueue` is the case of one value, not bulk.
  datatype Op<T> = Op(
    values: seq<T>,
    bulk: bool,
    startBlock: Option<Block>,     // tailBlock at the start
    first: Option<Block>,          // firstAllocatedBlock
    base: nat,                     // the word of the next block's base
    need: nat,                     // how many more blocks are needed
    c0: nat)                       // history: block numbers in use at the start

  datatype ProducerPC<T> =
    | Resting
    | Choose(op: Op<T>)
    | CheckFull(op: Op<T>)
    | FindEntry(op: Op<T>)
    | Grow(op: Op<T>)
    | StoreKey(op: Op<T>, entry: Entry, slot: nat)
    | StoreIndexTail(op: Op<T>, entry: Entry, slot: nat)
    | Requisition(op: Op<T>, entry: Entry)
    | StoreValue(op: Op<T>, entry: Entry, block: Block)
    | Rewind(op: Op<T>, entry: Entry)
    | ClearValue(op: Op<T>, entry: Entry)
    | Revert(op: Op<T>, chain: Option<Block>, base: nat, i: nat)        // i: number of the block (history)
    | RevertRewind(op: Op<T>, block: Block, base: nat, i: nat)
    | ReturnBlocks(op: Op<T>, chain: Option<Block>, rest: seq<Block>)   // rest: the chain (history)
    | Construct(op: Op<T>, k: nat, stop: nat, end: Option<Block>, j: nat)  // j: number of tailBlock (history)
    | StoreTail(op: Op<T>)

  datatype ConsumerPC =
    | Idle
    | LoadHeader(first: nat, n: nat)
    | LoadIndexTail(first: nat, n: nat, h: nat)
    | ReadKey(first: nat, n: nat, h: nat, tail: nat, p: nat)             // p: number at tail (history)
    | ReadValue(first: nat, n: nat, h: nat, slot: nat, i: nat)
    | MoveOut(first: nat, n: nat, h: nat, slot: nat, block: Block, begin: nat, i: nat)
    | Count(first: nat, n: nat, h: nat, slot: nat, block: Block, begin: nat, end: nat)
    | ClearEntry(first: nat, n: nat, h: nat, slot: nat, block: Block, begin: nat, end: nat)
    | FreeBlock(first: nat, n: nat, h: nat, slot: nat, block: Block, begin: nat, end: nat)

  /// The producer's own variables, and the memory only it writes.  An entry that no block was
  /// ever entered at has no key: its key is INVALID_BLOCK_BASE.
  datatype Ring<T> = Ring(
    tailBlock: Option<Block>,
    pc: ProducerPC<T>,
    headers: seq<Header>,                 // all indices so far; the last one is the current one
    keys: map<Entry, nat>,
    allotted: nat,                       // entries below this address are in use
    next: map<Block, Option<Block>>,
    starts: seq<Block>,                   // history: the block that got each number
    entryAt: seq<Entry>)                  // history: the entry that got each number
  {
    function At(p: ProducerPC<T>): Ring<T> { this.(pc := p) }

    function Current(): Header
      requires headers != []
    { headers[|headers| - 1] }

    function SetCurrent(h: Header): Ring<T>
      requires headers != []
    { this.(headers := headers[|headers| - 1 := h]) }

    function Low(): nat { if headers == [] then 0 else Current().low }
  }

  datatype State<T> = State(
    claims: Claims.State,
    ring: Ring<T>,
    vals: map<Entry, Block>,              // the values of entries; null where absent
    counts: map<Block, nat>,              // elementsCompletelyDequeued
    elems: map<(Block, nat), T>,          // constructed elements
    cpc: map<Thread, ConsumerPC>,
    // history
    owned: set<Block>,                    // taken from the pool and not returned
    values: seq<T>,                       // every value constructed so far, by index
    got: map<nat, T>,                     // what the consumer of an index got
    done: set<nat>,                       // the indices that have been counted
    closer: map<nat, Thread>,             // who saw the count of a block reach BLOCK_SIZE
    cleared: set<nat>,                    // numbers of blocks taken out of the index
    freed: set<nat>)                      // numbers of blocks returned by consumers
  {
    function Cpc(t: Thread): ConsumerPC { CpcOf(cpc, t) }
    function Goto(t: Thread, p: ConsumerPC): State<T> { this.(cpc := cpc[t := p]) }
  }

  function CpcOf(cpc: map<Thread, ConsumerPC>, t: Thread): ConsumerPC {
    if t in cpc then cpc[t] else Idle
  }

  function KeyOf(keys: map<Entry, nat>, e: Entry): nat {
    if e in keys then keys[e] else INVALID_BLOCK_BASE
  }

  function ValOf(vals: map<Entry, Block>, e: Entry): Option<Block> {
    if e in vals then Some(vals[e]) else None
  }

  function NextOf(next: map<Block, Option<Block>>, b: Block): Option<Block> {
    if b in next then next[b] else None
  }

  function CountOf(counts: map<Block, nat>, b: Block): nat {
    if b in counts then counts[b] else 0
  }

  datatype Request<T> =
    | Enqueue(values: seq<T>, bulk: bool)
    | Dequeue(max: nat)
    | Granted(block: Block)      // memory for an index or a block was available
    | Denied
    | Go

  // --------------------------------------------------- steps of the producer

  function Begin<T>(r: Ring<T>, tail: nat, values: seq<T>, bulk: bool): ProducerPC<T> {
    Choose(Op(values, bulk, r.tailBlock, None, FirstBase(tail, bulk), BlocksNeeded(tail, |values|, bulk), |r.starts|))
  }

  /// The slot after the tail of an index, where the next block is entered.
  function NextSlot(h: Header): nat {
    if h.capacity > 0 then Wrap(h.tail + 1) % h.capacity else 0
  }

  function PreviousSlot(h: Header): nat {
    if h.capacity > 0 then Wrap(h.tail - 1) % h.capacity else 0
  }

  /// The entries of the old index, oldest first, and as many new ones.
  function GrownIndex(old_: seq<Entry>, tail: nat, first: nat): seq<Entry> {
    seq(2 * |old_|, i requires i >= 0 =>
      if i < |old_| then old_[Wrap(tail + 1 + i) % |old_|] else first + (i - |old_|))
  }

  function GrowIndex<T>(r: Ring<T>): Ring<T>
    requires r.headers != []
  {
    var h := r.Current();
    r.(headers := r.headers + [Header(2 * h.capacity, if h.capacity > 0 then h.capacity - 1 else 0,
                                      GrownIndex(h.index, h.tail, r.allotted),
                                      h.low, h.low, h.top, h.at, h.shown)],
       allotted := r.allotted + h.capacity)
  }

  /// History: the number of the next block gets entry `e`, which the one `capacity` before it loses.
  function EnterKey<T>(r: Ring<T>, e: Entry): Ring<T>
    requires r.headers != []
  {
    var h, c := r.Current(), |r.starts|;
    r.SetCurrent(h.(low := if h.low + h.capacity <= c then c + 1 - h.capacity else h.low,
                    top := if h.top <= c then c + 1 else h.top))
     .(entryAt := if h.top <= c then r.entryAt + [e] else r.entryAt)
  }

  function MoveIndexTail<T>(r: Ring<T>, slot: nat, delta: int): Ring<T> {
    if r.headers == [] || r.Current().at + delta < 0 then r
    else r.SetCurrent(r.Current().(tail := slot, at := r.Current().at + delta))
  }

  function RewindIndexTail<T>(r: Ring<T>): Ring<T> {
    if r.headers == [] then r else MoveIndexTail(r, PreviousSlot(r.Current()), -1)
  }

  /// The base before that of the first block of a bulk operation.
  function PreviousBase(tail: nat): nat {
    BlockBase(Wrap(Wrap(tail) - 1))
  }

  /// A failed operation gives back what it has; `enqueue` has nothing at this point.
  function Fail<T>(tail: nat, op: Op<T>): ProducerPC<T> {
    if op.bulk then Revert(op, op.first, PreviousBase(tail), op.c0) else Resting
  }

  function AddBlock<T>(r: Ring<T>, tail: nat, op: Op<T>, b: Block): Ring<T> {
    var link := op.bulk && (Wrap(tail) % BLOCK_SIZE != 0 || op.first.Some?) && r.tailBlock.Some?;
    r.(next := if link then r.next[r.tailBlock.value := Some(b)] else r.next,
       tailBlock := Some(b),
       starts := r.starts + [b])
     .At(Choose(op.(first := if op.first.None? then Some(b) else op.first,
                    base := Wrap(op.base + BLOCK_SIZE),
                    need := if op.need > 0 then op.need - 1 else 0)))
  }

  /// What `get_block_index_entry_for_index` finds for the producer.
  function Lookup<T>(r: Ring<T>, index: nat): Entry {
    if r.headers == [] then 0 else
    var h := r.Current();
    if h.tail >= |h.index| || h.capacity != |h.index| then 0
    else h.index[SlotFrom(h.tail, BlockOffset(index, KeyOf(r.keys, h.index[h.tail])), h.capacity)]
  }

  function BeginConstruct<T>(r: Ring<T>, tail: nat, op: Op<T>): Ring<T> {
    r.(tailBlock := if Wrap(tail) % BLOCK_SIZE == 0 && op.first.Some? then op.first else op.startBlock)
     .At(Construct(op, tail, StopIndex(tail, tail + |op.values|), r.tailBlock,
                   if tail % BLOCK_SIZE == 0 && op.first.None? && tail > 0
                   then tail / BLOCK_SIZE - 1 else tail / BLOCK_SIZE))
  }

  function FindStep<T>(r: Ring<T>, tail: nat, op: Op<T>, vals: map<Entry, Block>): ProducerPC<T> {
    if r.headers == [] || |r.Current().index| <= NextSlot(r.Current()) then Fail(tail, op) else
    var slot := NextSlot(r.Current());
    var e := r.Current().index[slot];
    if KeyOf(r.keys, e) == INVALID_BLOCK_BASE || ValOf(vals, e).None? then StoreKey(op, e, slot) else Grow(op)
  }

  /// One step of the producer as far as it concerns its own memory.
  function RingStep<T>(r: Ring<T>, tail: nat, head: nat, vals: map<Entry, Block>, owned: set<Block>,
                       q: Request<T>): Ring<T> {
    match r.pc
    case Resting =>
      if q.Enqueue? && (q.bulk || |q.values| == 1) && |q.values| < HALF
      then r.At(Begin(r, tail, q.values, q.bulk)) else r
    case Choose(op) => if op.need == 0 then BeginConstruct(r, tail, op) else r.At(CheckFull(op))
    case CheckFull(op) =>
      r.At(if !CircularLessThan(Wrap(head), Wrap(op.base + BLOCK_SIZE)) then Fail(tail, op) else FindEntry(op))
    case FindEntry(op) => r.At(FindStep(r, tail, op, vals))
    case Grow(op) =>
      // an index of more than 2^58 entries cannot be allotted
      if q.Granted? && r.headers != [] && 2 * r.Current().capacity * BLOCK_SIZE <= HALF then
        (var r' := GrowIndex(r);
         var slot := NextSlot(r'.Current());
         if slot < |r'.Current().index| then r'.At(StoreKey(op, r'.Current().index[slot], slot)) else r)
      else r.At(Fail(tail, op))
    case StoreKey(op, e, slot) =>
      if r.headers == [] then r else EnterKey(r, e).(keys := r.keys[e := op.base]).At(StoreIndexTail(op, e, slot))
    case StoreIndexTail(op, e, slot) => MoveIndexTail(r, slot, 1).At(Requisition(op, e))
    case Requisition(op, e) =>
      if !q.Granted? then r.At(Rewind(op, e))
      else if q.block in owned then r
      else r.(next := if op.bulk then r.next[q.block := None] else r.next).At(StoreValue(op, e, q.block))
    case StoreValue(op, e, b) => AddBlock(r, tail, op, b)
    case Rewind(op, e) => RewindIndexTail(r).At(ClearValue(op, e))
    case ClearValue(op, e) => r.At(Fail(tail, op))
    case Revert(op, chain, base, i) =>
      if chain.Some? then r.At(RevertRewind(op, chain.value, Wrap(base + BLOCK_SIZE), i))
      else if op.c0 <= |r.starts| then r.(starts := r.starts[..op.c0]).At(ReturnBlocks(op, op.first, r.starts[op.c0..]))
      else r
    case RevertRewind(op, b, base, i) => RewindIndexTail(r).At(Revert(op, NextOf(r.next, b), base, i + 1))
    case ReturnBlocks(op, chain, rest) =>
      if chain.Some? then r.At(ReturnBlocks(op, NextOf(r.next, chain.value), if rest == [] then [] else rest[1..]))
      else r.(tailBlock := op.startBlock).At(Resting)
    case Construct(op, k, stop, end, j) =>
      if k != stop then r.At(Construct(op, k + 1, stop, end, j))
      else if r.tailBlock == end then r.At(StoreTail(op))
      else r.(tailBlock := if r.tailBlock.Some? then NextOf(r.next, r.tailBlock.value) else None)
            .At(Construct(op, k, StopIndex(k, tail + |op.values|), end, j + 1))
    case StoreTail(op) =>
      (if r.headers == [] then r else r.SetCurrent(r.Current().(shown := |r.starts|))).At(Resting)
  }

  function ValsAfter<T>(r: Ring<T>, vals: map<Entry, Block>): map<Entry, Block> {
    match r.pc
    case StoreValue(op, e, b) => vals[e := b]
    case ClearValue(op, e) => vals - {e}
    case Revert(op, chain, base, i) => if chain.Some? then vals - {Lookup(r, Wrap(base + BLOCK_SIZE))} else vals
    case _ => vals
  }

  /// A block from the pool has its counter reset.
  function CountsAfter<T>(p: ProducerPC<T>, counts: map<Block, nat>, owned: set<Block>,
                          q: Request<T>): map<Block, nat> {
    if p.Requisition? && q.Granted? && q.block !in owned then counts[q.block := 0] else counts
  }

  function OwnedAfter<T>(p: ProducerPC<T>, owned: set<Block>, q: Request<T>): set<Block> {
    if p.Requisition? && q.Granted? && q.block !in owned then owned + {q.block}
    else if p.ReturnBlocks? && p.chain.Some? then owned - {p.chain.value}
    else owned
  }

  function Constructs<T>(r: Ring<T>, tail: nat): bool {
    r.pc.Construct? && r.pc.k != r.pc.stop && tail <= r.pc.k < tail + |r.pc.op.values| && r.tailBlock.Some?
  }

  function ElemsAfter<T>(r: Ring<T>, tail: nat, elems: map<(Block, nat), T>): map<(Block, nat), T> {
    if Constructs(r, tail) then elems[(r.tailBlock.value, r.pc.k % BLOCK_SIZE) := r.pc.op.values[r.pc.k - tail]]
        else elems
  }

  function ValuesAfter<T>(r: Ring<T>, tail: nat, values: seq<T>): seq<T> {
    if Constructs(r, tail) then values + [r.pc.op.values[r.pc.k - tail]] else values
  }

  /// One step of the producer.
  function ProducerStep<T>(s: State<T>, q: Request<T>): State<T> {
    var r := s.ring;
    var tail := s.claims.tail;
    s.(claims := s.claims.(tail := if r.pc.StoreTail? then tail + |r.pc.op.values| else tail),
       ring := RingStep(r, tail, s.claims.head, s.vals, s.owned, q),
       vals := ValsAfter(r, s.vals),
       counts := CountsAfter(r.pc, s.counts, s.owned, q),
       elems := ElemsAfter(r, tail, s.elems),
       owned := OwnedAfter(r.pc, s.owned, q),
       values := ValuesAfter(r, tail, s.values))
  }

  // -------------------------------------------------- steps of the consumers

  /// The claim protocol takes its own steps until indices have been added to `head`.
  function ClaimStep<T>(s: State<T>, t: Thread, q: Request<T>): State<T>
    requires t in s.claims.pc
  {
    var p := s.claims.pc[t];
    var claims := Claims.Step(s.claims, t, if q.Dequeue? then Claims.Dequeue(q.max) else Claims.Go);
    var s1 := s.(claims := claims);
    if p.Advance? && p.granted > 0 then s1.Goto(t, LoadHeader(s.claims.head, p.granted)) else s1
  }

  /// On to the indices in the next block, if there are any.
  function NextSegment(p: ConsumerPC, h: Header): ConsumerPC
    requires p.Count? || p.FreeBlock?
  {
    if p.end == p.first + p.n || h.capacity == 0 then Idle
    else ReadValue(p.first, p.n, p.h, Wrap(p.slot + 1) % h.capacity, p.end)
  }

  function Moved(p: ConsumerPC): ConsumerPC
    requires p.MoveOut?
  {
    MoveOut(p.first, p.n, p.h, p.slot, p.block, p.begin, p.i + 1)
  }

  /// Where a consumer goes once it has counted a segment.
  function AfterCount(p: ConsumerPC, h: Header, full: bool): ConsumerPC
    requires p.Count?
  {
    if full then ClearEntry(p.first, p.n, p.h, p.slot, p.block, p.begin, p.end) else NextSegment(p, h)
  }

  /// The steps of a lookup, which write nothing.
  function LookUp<T>(r: Ring<T>, vals: map<Entry, Block>, p: ConsumerPC): ConsumerPC {
    match p
    case LoadHeader(first, n) => if r.headers == [] then p else LoadIndexTail(first, n, |r.headers| - 1)
    case LoadIndexTail(first, n, h) =>
      if h >= |r.headers| then p
      else ReadKey(first, n, h, r.headers[h].tail, if r.headers[h].at > 0 then r.headers[h].at - 1 else 0)
    case ReadKey(first, n, h, tail, _) =>
      if h >= |r.headers| || tail >= |r.headers[h].index| || r.headers[h].capacity == 0 then p else
      var offset := BlockOffset(Wrap(first), KeyOf(r.keys, r.headers[h].index[tail]));
      ReadValue(first, n, h, SlotFrom(tail, offset, r.headers[h].capacity), first)
    case ReadValue(first, n, h, slot, i) =>
      if h >= |r.headers| || slot >= |r.headers[h].index| then p else
      var v := ValOf(vals, r.headers[h].index[slot]);
      if v.Some? then MoveOut(first, n, h, slot, v.value, i, i) else p
    case _ => p
  }

  function TakeElement<T>(s: State<T>, t: Thread): State<T>
    requires s.Cpc(t).MoveOut?
  {
    var p := s.Cpc(t);
    var end := StopIndex(p.begin, p.first + p.n);
    if p.i == end then s.Goto(t, Count(p.first, p.n, p.h, p.slot, p.block, p.begin, end))
    else if (p.block, p.i % BLOCK_SIZE) in s.elems then
      s.(got := s.got[p.i := s.elems[(p.block, p.i % BLOCK_SIZE)]], elems := s.elems - {(p.block, p.i % BLOCK_SIZE)})
       .Goto(t, Moved(p))
    else s
  }

  /// set_empty and set_many_empty
  function CountEmpty<T>(s: State<T>, t: Thread): State<T>
    requires s.Cpc(t).Count?
  {
    var p := s.Cpc(t);
    if p.h >= |s.ring.headers| || p.end < p.begin then s else
    var count := CountOf(s.counts, p.block) + (p.end - p.begin);
    s.(counts := s.counts[p.block := count],
       done := s.done + Range(p.begin, p.end),
       closer := if count == BLOCK_SIZE then s.closer[p.begin / BLOCK_SIZE := t] else s.closer)
     .Goto(t, AfterCount(p, s.ring.headers[p.h], count == BLOCK_SIZE))
  }

  function TakeFromIndex<T>(s: State<T>, t: Thread): State<T>
    requires s.Cpc(t).ClearEntry?
  {
    var p := s.Cpc(t);
    if p.h >= |s.ring.headers| || p.slot >= |s.ring.headers[p.h].index| then s else
    s.(vals := s.vals - {s.ring.headers[p.h].index[p.slot]}, cleared := s.cleared + {p.begin / BLOCK_SIZE})
     .Goto(t, FreeBlock(p.first, p.n, p.h, p.slot, p.block, p.begin, p.end))
  }

  function ReturnBlock<T>(s: State<T>, t: Thread): State<T>
    requires s.Cpc(t).FreeBlock?
  {
    var p := s.Cpc(t);
    if p.h >= |s.ring.headers| then s else
    s.(owned := s.owned - {p.block}, freed := s.freed + {p.begin / BLOCK_SIZE})
     .Goto(t, NextSegment(p, s.ring.headers[p.h]))
  }

  function ConsumerStep<T>(s: State<T>, t: Thread, q: Request<T>): State<T>
    requires t in s.claims.pc
  {
    match s.Cpc(t)
    case Idle => ClaimStep(s, t, q)
    case MoveOut(_, _, _, _, _, _, _) => TakeElement(s, t)
    case Count(_, _, _, _, _, _, _) => CountEmpty(s, t)
    case ClearEntry(_, _, _, _, _, _, _) => TakeFromIndex(s, t)
    case FreeBlock(_, _, _, _, _, _, _) => ReturnBlock(s, t)
    case _ => s.Goto(t, LookUp(s.ring, s.vals, s.Cpc(t)))
  }

  function Range(begin: nat, end: nat): (r: set<nat>)
    ensures forall k: nat :: k in r <==> begin <= k < end
  {
    if begin < end then Range(begin, end - 1) + {end - 1} else {}
  }

  // ------------------------------------------------------------ invariant

  function IndexAt(h: Header, p: int): Entry {
    if h.capacity > 0 && |h.index| == h.capacity then h.index[SlotOf(p, h.origin, h.capacity)] else 0
  }

  ghost predicate HeaderOk(h: Header, entryAt: seq<Entry>) {
    && h.capacity > 0 && |h.index| == h.capacity && PowerOfTwo(h.capacity) && h.capacity * BLOCK_SIZE <= HALF
    && h.low <= h.top <= |entryAt| && h.top <= h.low + h.capacity && h.shown <= h.at <= h.top
    && h.tail == SlotOf(h.at - 1, h.origin, h.capacity)
    && (forall q | h.low <= q < h.top :: IndexAt(h, q) == entryAt[q])
  }

  ghost predicate HeadersOk(headers: seq<Header>, entryAt: seq<Entry>) {
    forall h <- headers :: HeaderOk(h, entryAt) && h.low <= headers[|headers| - 1].low
  }

  /// From number `low` on, every number has an entry of its own, which holds its base.
  ghost predicate KeysOk(keys: map<Entry, nat>, entryAt: seq<Entry>, low: nat, allotted: nat) {
    && (forall q | low <= q < |entryAt| :: KeyOf(keys, entryAt[q]) == Wrap(q * BLOCK_SIZE))
    && (forall p, q | low <= p < q < |entryAt| :: entryAt[p] != entryAt[q])
    && (forall e <- keys :: e < allotted)
  }

  /// The slots of the current index not in use can be used.
  ghost predicate SlotsOk(headers: seq<Header>, vals: map<Entry, Block>, allotted: nat) {
    && (forall e <- vals :: e < allotted)
    && (headers != [] ==>
          var h := headers[|headers| - 1];
          && (forall a, b | 0 <= a < b < |h.index| :: h.index[a] != h.index[b])
          && (forall e <- h.index :: e < allotted)
          && (forall q | h.top <= q < h.low + h.capacity :: ValOf(vals, IndexAt(h, q)).None?))
  }

  /// The numbers of an operation being reverted whose entries have been cleared.
  function RevertedTo<T>(p: ProducerPC<T>): nat {
    if p.Revert? then p.i else if p.RevertRewind? then p.i + 1 else 0
  }

  predicate Reverted<T>(p: ProducerPC<T>, q: int) {
    (p.Revert? || p.RevertRewind?) && p.op.c0 <= q < RevertedTo(p)
  }

  /// The entry of a number holds its block until it is cleared.
  ghost predicate ValsOk<T>(vals: map<Entry, Block>, entryAt: seq<Entry>, low: nat, starts: seq<Block>,
                            p: ProducerPC<T>, cleared: set<nat>) {
    forall q: nat | low <= q < |entryAt| ::
      ValOf(vals, entryAt[q]) == if q < |starts| && q !in cleared && !Reverted(p, q) then Some(starts[q]) else None
  }

  function Pending<T>(p: ProducerPC<T>): seq<Block> {
    if p.StoreValue? then [p.block] else if p.ReturnBlocks? then p.rest else []
  }

  predicate Live(starts: seq<Block>, freed: set<nat>, j: int) {
    0 <= j < |starts| && j !in freed
  }

  /// What the producer has taken from the pool and not returned: one block for each number in
  /// use, and those an unfinished operation is about to use or to return.
  ghost predicate BlocksOk(owned: set<Block>, starts: seq<Block>, freed: set<nat>, pending: seq<Block>) {
    && (forall j | Live(starts, freed, j) :: starts[j] in owned)
    && (forall i, j | Live(starts, freed, i) && Live(starts, freed, j) && i != j :: starts[i] != starts[j])
    && (forall b <- owned :: b in pending || exists j :: Live(starts, freed, j) && starts[j] == b)
    && (forall b <- pending :: b in owned)
    && (forall j | Live(starts, freed, j) :: starts[j] !in pending)
    && (forall i, j | 0 <= i < j < |pending| :: pending[i] != pending[j])
  }

  function Counted(done: set<nat>, base: nat, n: nat): nat {
    if n == 0 then 0 else Counted(done, base, n - 1) + (if base + n - 1 in done then 1 else 0)
  }

  /// The counter of a block counts its elements that are gone.
  ghost predicate CountsOk<T>(counts: map<Block, nat>, starts: seq<Block>, freed: set<nat>, done: set<nat>,
                              p: ProducerPC<T>) {
    && (forall j | Live(starts, freed, j) :: CountOf(counts, starts[j]) == Counted(done, j * BLOCK_SIZE, BLOCK_SIZE))
    && (p.StoreValue? ==> CountOf(counts, p.block) == 0)
  }

  /// Constructed elements: exactly the values enqueued and not yet moved out, each in its place.
  ghost predicate ElemsOk<T>(elems: map<(Block, nat), T>, starts: seq<Block>, freed: set<nat>, values: seq<T>,
                             got: map<nat, T>) {
    && (forall k: nat | k < |values| && k !in got :: Home(starts, k) in elems && elems[Home(starts, k)] == values[k])
    && (forall k: nat | k < |values| && k !in got :: Live(starts, freed, k / BLOCK_SIZE))
    && (forall x <- elems :: exists k: nat :: k < |values| && k !in got && x == Home(starts, k))
  }

  ghost predicate GotOk<T>(got: map<nat, T>, done: set<nat>, head: nat, values: seq<T>) {
    && head <= |values|
    && (forall k <- got :: k < head && got[k] == values[k])
    && (forall k <- done :: k in got)
  }

  predicate InJob(p: ConsumerPC, k: nat) {
    !p.Idle? && p.first <= k < p.first + p.n
  }

  predicate Closing(p: ConsumerPC, j: nat) {
    (p.ClearEntry? || p.FreeBlock?) && p.begin / BLOCK_SIZE == j
  }

  function MovedTo(p: ConsumerPC): nat {
    match p
    case ReadValue(_, _, _, _, i) => i
    case MoveOut(_, _, _, _, _, _, i) => i
    case Count(_, _, _, _, _, _, end) => end
    case ClearEntry(_, _, _, _, _, _, end) => end
    case FreeBlock(_, _, _, _, _, _, end) => end
    case LoadHeader(first, _) => first
    case LoadIndexTail(first, _, _) => first
    case ReadKey(first, _, _, _, _) => first
    case Idle => 0
  }

  function CountedTo(p: ConsumerPC): nat {
    match p
    case ReadValue(_, _, _, _, i) => i
    case MoveOut(_, _, _, _, _, begin, _) => begin
    case Count(_, _, _, _, _, begin, _) => begin
    case ClearEntry(_, _, _, _, _, _, end) => end
    case FreeBlock(_, _, _, _, _, _, end) => end
    case LoadHeader(first, _) => first
    case LoadIndexTail(first, _, _) => first
    case ReadKey(first, _, _, _, _) => first
    case Idle => 0
  }

  /// How far the consumer has come with the indices it claimed.
  ghost predicate ProgressOk<T>(p: ConsumerPC, got: map<nat, T>, done: set<nat>) {
    forall k: nat | InJob(p, k) :: (k in got <==> k < MovedTo(p)) && (k in done <==> k < CountedTo(p))
  }

  predicate AtSlot(p: ConsumerPC, h: Header, slot: nat, begin: nat)
    requires !p.Idle?
  {
    && p.first <= begin < p.first + p.n && (begin == p.first || begin % BLOCK_SIZE == 0)
    && h.capacity > 0 && slot == SlotOf(begin / BLOCK_SIZE, h.origin, h.capacity)
  }

  function LastNumber(p: ConsumerPC): int
    requires !p.Idle?
  {
    (p.first + p.n - 1) / BLOCK_SIZE
  }

  ghost predicate AtHeader(p: ConsumerPC, h: Header, starts: seq<Block>)
    requires !p.Idle? && !p.LoadHeader?
  {
    LastNumber(p) < h.shown &&
    match p
    case LoadIndexTail(_, _, _) => true
    case ReadKey(_, _, _, tail, at) =>
      LastNumber(p) <= at < h.top && h.capacity > 0 && tail == SlotOf(at, h.origin, h.capacity)
    case ReadValue(_, _, _, slot, i) => AtSlot(p, h, slot, i)
    case MoveOut(first, n, _, slot, b, begin, i) =>
      AtSlot(p, h, slot, begin) && begin <= i <= StopIndex(begin, first + n) && b == BlockAt(starts, begin / BLOCK_SIZE)
    case Count(first, n, _, slot, b, begin, end) =>
      AtSlot(p, h, slot, begin) && end == StopIndex(begin, first + n) && b == BlockAt(starts, begin / BLOCK_SIZE)
    case ClearEntry(first, n, _, slot, b, begin, end) =>
      AtSlot(p, h, slot, begin) && end == StopIndex(begin, first + n) && b == BlockAt(starts, begin / BLOCK_SIZE)
    case FreeBlock(first, n, _, slot, b, begin, end) =>
      AtSlot(p, h, slot, begin) && end == StopIndex(begin, first + n) && b == BlockAt(starts, begin / BLOCK_SIZE)
  }

  ghost predicate JobOk(p: ConsumerPC, headers: seq<Header>, starts: seq<Block>) {
    p.Idle? || (0 < p.n < HALF && (p.LoadHeader? || (p.h < |headers| && AtHeader(p, headers[p.h], starts))))
  }

  predicate Apart(p: ConsumerPC, q: ConsumerPC) {
    p.Idle? || q.Idle? || p.first + p.n <= q.first || q.first + q.n <= p.first
  }

  ghost predicate JobsOk<T>(cpc: map<Thread, ConsumerPC>, claims: Claims.State, headers: seq<Header>,
                            starts: seq<Block>, got: map<nat, T>, done: set<nat>) {
    && (forall t: Thread :: JobOk(CpcOf(cpc, t), headers, starts))
    && (forall t: Thread :: ProgressOk(CpcOf(cpc, t), got, done))
    && (forall t: Thread :: !CpcOf(cpc, t).Idle? ==> CpcOf(cpc, t).first + CpcOf(cpc, t).n <= claims.head)
    && (forall t: Thread, u: Thread | t != u :: Apart(CpcOf(cpc, t), CpcOf(cpc, u)))
    && (forall t: Thread :: !CpcOf(cpc, t).Idle? ==> t in claims.pc && claims.pc[t].Idle?)
  }

  /// Every element of block number j is gone.
  ghost predicate Full(done: set<nat>, j: nat) {
    forall k: nat | k / BLOCK_SIZE == j :: k in done
  }

  /// One consumer sees a block become empty; it clears its entry, then returns it to the pool.
  ghost predicate RecycleOk(done: set<nat>, closer: map<nat, Thread>, cleared: set<nat>, freed: set<nat>,
                            cpc: map<Thread, ConsumerPC>) {
    && (forall j: nat :: j in closer <==> Full(done, j))
    && (forall j: nat | j in closer :: j in freed || Closing(CpcOf(cpc, closer[j]), j))
    && (forall j: nat :: (j in freed ==> j in cleared) && (j in cleared ==> j in closer))
    && (forall t: Thread | CpcOf(cpc, t).ClearEntry? || CpcOf(cpc, t).FreeBlock? ::
          var p := CpcOf(cpc, t); var j := p.begin / BLOCK_SIZE;
          j in closer && closer[j] == t && j !in freed && (j in cleared <==> p.FreeBlock?))
  }

  ghost predicate LowOk(low: nat, cleared: set<nat>) {
    forall q: nat | q < low :: q in cleared
  }

  // -------------------------------------------------------- the producer

  /// The current index lists what has been entered, and its tail is at number at - 1.
  predicate Listed<T>(r: Ring<T>, tail: nat, at: int) {
    && (r.headers == [] ==> r.starts == [] && r.entryAt == [])
    && (r.headers != [] ==>
          var h := r.Current();
          h.top == |r.entryAt| && h.at == at && |r.starts| <= h.top && h.shown == CeilBlocks(tail))
  }

  /// The first number whose block is linked to the next.
  function LinkedFrom(tail: nat): int {
    if tail % BLOCK_SIZE == 0 then CeilBlocks(tail) else CeilBlocks(tail) - 1
  }

  ghost predicate LinksOk<T>(r: Ring<T>, tail: nat, op: Op<T>) {
    && (forall j | LinkedFrom(tail) <= j < |r.starts| - 1 :: NextOf(r.next, r.starts[j]) == Some(r.starts[j + 1]))
    && (op.bulk && |r.starts| > op.c0 ==> NextOf(r.next, r.starts[|r.starts| - 1]) == None)
  }

  ghost predicate OpOk<T>(r: Ring<T>, tail: nat, op: Op<T>) {
    && op.c0 == CeilBlocks(tail) <= |r.starts|
    && |r.starts| + op.need == CeilBlocks(tail + |op.values|)
    && op.first == (if |r.starts| > op.c0 then Some(r.starts[op.c0]) else None)
    && op.startBlock == LastBlock(r.starts, op.c0)
    && (op.need > 0 ==> op.base == Wrap(|r.starts| * BLOCK_SIZE))
    && |op.values| < HALF && (!op.bulk ==> |op.values| == 1)
    && r.tailBlock == LastBlock(r.starts, |r.starts|)
    && LinksOk(r, tail, op)
  }

  ghost predicate Allocating<T>(r: Ring<T>, tail: nat, op: Op<T>) {
    OpOk(r, tail, op) && Listed(r, tail, |r.starts|)
  }

  /// The next block's entry `e` has its key.
  ghost predicate Keyed<T>(r: Ring<T>, tail: nat, op: Op<T>, e: Entry) {
    OpOk(r, tail, op) && op.need > 0 && r.headers != [] && |r.starts| < |r.entryAt| && e == r.entryAt[|r.starts|]
  }

  ghost predicate Filling<T>(r: Ring<T>, tail: nat, op: Op<T>) {
    && op.c0 == CeilBlocks(tail) <= |r.starts| && |r.starts| == CeilBlocks(tail + |op.values|)
    && |op.values| < HALF
    && Listed(r, tail, |r.starts|)
    && LinksOk(r, tail, op)
  }

  ghost predicate Reverting<T>(r: Ring<T>, tail: nat, op: Op<T>, i: nat) {
    OpOk(r, tail, op) && op.bulk && op.c0 <= i <= |r.starts| && Listed(r, tail, |r.starts| - (i - op.c0))
  }

  ghost predicate ChainOk(next: map<Block, Option<Block>>, chain: Option<Block>, rest: seq<Block>) {
    && chain == (if rest == [] then None else Some(rest[0]))
    && (forall j {:trigger NextOf(next, rest[j])} | 0 <= j < |rest| ::
          NextOf(next, rest[j]) == if j + 1 < |rest| then Some(rest[j + 1]) else None)
  }

  ghost predicate RingPcOk<T>(r: Ring<T>, tail: nat) {
    match r.pc
    case Resting => Listed(r, tail, |r.starts|) && |r.starts| == CeilBlocks(tail)
        && r.tailBlock == LastBlock(r.starts, |r.starts|)
    case Choose(op) => Allocating(r, tail, op)
    case CheckFull(op) => Allocating(r, tail, op) && op.need > 0
    case FindEntry(op) => Allocating(r, tail, op) && op.need > 0
    case Grow(op) =>
      Allocating(r, tail, op) && op.need > 0 && r.headers != []
      && |r.starts| == r.Current().top == r.Current().low + r.Current().capacity
    case StoreKey(op, e, slot) =>
      Allocating(r, tail, op) && op.need > 0 && r.headers != []
      && slot == SlotOf(|r.starts|, r.Current().origin, r.Current().capacity) && e == IndexAt(r.Current(), |r.starts|)
    case StoreIndexTail(op, e, slot) =>
      Keyed(r, tail, op, e) && Listed(r, tail, |r.starts|)
          && slot == SlotOf(|r.starts|, r.Current().origin, r.Current().capacity)
    case Requisition(op, e) => Keyed(r, tail, op, e) && Listed(r, tail, |r.starts| + 1)
    case StoreValue(op, e, b) =>
      Keyed(r, tail, op, e) && Listed(r, tail, |r.starts| + 1) && (op.bulk ==> NextOf(r.next, b) == None)
    case Rewind(op, e) => Keyed(r, tail, op, e) && Listed(r, tail, |r.starts| + 1)
    case ClearValue(op, e) => Keyed(r, tail, op, e) && Listed(r, tail, |r.starts|)
    case Revert(op, chain, base, i) =>
      Reverting(r, tail, op, i) && chain == (if i < |r.starts| then Some(r.starts[i]) else None)
      && base == Wrap(i * BLOCK_SIZE - BLOCK_SIZE)
    case RevertRewind(op, b, base, i) =>
      Reverting(r, tail, op, i) && i < |r.starts| && b == r.starts[i] && base == Wrap(i * BLOCK_SIZE)
    case ReturnBlocks(op, chain, rest) =>
      Listed(r, tail, |r.starts|) && |r.starts| == CeilBlocks(tail) && op.startBlock == LastBlock(r.starts, |r.starts|)
      && ChainOk(r.next, chain, rest)
    case Construct(op, k, stop, end, j) =>
      && Filling(r, tail, op) && tail <= k <= stop <= tail + |op.values|
      && end == LastBlock(r.starts, |r.starts|)
      && (if |r.starts| == 0 then r.tailBlock == None && stop == k else
          j < |r.starts| && r.tailBlock == Some(r.starts[j]) && (LinkedFrom(tail) <= j || j == |r.starts| - 1)
          && j * BLOCK_SIZE <= k
          && (stop == (j + 1) * BLOCK_SIZE || (stop == tail + |op.values| && stop < (j + 1) * BLOCK_SIZE)))
    case StoreTail(op) => Filling(r, tail, op) && r.tailBlock == LastBlock(r.starts, |r.starts|)
  }

  /// The entry the producer is about to give a new key is free.
  predicate EntryFree<T>(p: ProducerPC<T>, vals: map<Entry, Block>) {
    p.StoreKey? ==> ValOf(vals, p.entry).None?
  }

  /// How many values have been constructed.
  ghost predicate ValuesOk<T>(p: ProducerPC<T>, tail: nat, values: seq<T>) {
    match p
    case Construct(op, k, _, _, _) => tail <= k <= tail + |op.values| && |values| == k
        && values[tail..] == op.values[..k - tail]
    case StoreTail(op) => |values| == tail + |op.values| && values[tail..] == op.values
    case _ => |values| == tail
  }

  ghost predicate RingInv<T>(r: Ring<T>, tail: nat) {
    && HeadersOk(r.headers, r.entryAt)
    && KeysOk(r.keys, r.entryAt, r.Low(), r.allotted)
    && RingPcOk(r, tail)
  }

  ghost predicate Inv<T>(s: State<T>) {
    var r := s.ring;
    && Claims.Inv(s.claims)
    && RingInv(r, s.claims.tail)
    && SlotsOk(r.headers, s.vals, r.allotted)
    && EntryFree(r.pc, s.vals)
    && ValsOk(s.vals, r.entryAt, r.Low(), r.starts, r.pc, s.cleared)
    && LowOk(r.Low(), s.cleared)
    && BlocksOk(s.owned, r.starts, s.freed, Pending(r.pc))
    && CountsOk(s.counts, r.starts, s.freed, s.done, r.pc)
    && ValuesOk(r.pc, s.claims.tail, s.values)
    && ElemsOk(s.elems, r.starts, s.freed, s.values, s.got)
    && GotOk(s.got, s.done, s.claims.head, s.values)
    && RecycleOk(s.done, s.closer, s.cleared, s.freed, s.cpc)
    && JobsOk(s.cpc, s.claims, r.headers, r.starts, s.got, s.done)
  }

  // ------------------------------------------------- consumers keep it

  lemma RingFacts<T>(r: Ring<T>, tail: nat)
    requires RingPcOk(r, tail)
    ensures CeilBlocks(tail) <= |r.starts|
    ensures r.headers == [] ==> r.starts == [] && r.entryAt == []
    ensures r.headers != [] ==> CeilBlocks(tail) <= r.Current().shown && |r.starts| <= r.Current().top == |r.entryAt|
    ensures r.pc.Revert? || r.pc.RevertRewind? ==> r.pc.op.c0 == CeilBlocks(tail)
  {}

  lemma BelowCeil(k: nat, tail: nat)
    requires k < tail
    ensures k / BLOCK_SIZE < CeilBlocks(tail)
  {}

  lemma JobAt<T>(s: State<T>, t: Thread)
    requires Inv(s)
    ensures JobOk(s.Cpc(t), s.ring.headers, s.ring.starts) && ProgressOk(s.Cpc(t), s.got, s.done)
    ensures forall h | 0 <= h < |s.ring.headers| :: HeaderOk(s.ring.headers[h], s.ring.entryAt)
              && s.ring.headers[h].low <= s.ring.Low()
    ensures !s.Cpc(t).Idle? && !s.Cpc(t).LoadHeader? ==> s.Cpc(t).h < |s.ring.headers|
  {
    hide KeysOk, RingPcOk, SlotsOk, ValsOk, BlocksOk, CountsOk, ValuesOk, ElemsOk, GotOk, RecycleOk, LowOk, EntryFree,
        Claims.Inv, AtHeader, ProgressOk, HeaderOk;
  }

  /// The block of an index that has not been counted is in use.
  lemma UncountedIsLive(done: set<nat>, closer: map<nat, Thread>, cleared: set<nat>, freed: set<nat>,
                        cpc: map<Thread, ConsumerPC>, k: nat)
    requires RecycleOk(done, closer, cleared, freed, cpc) && k !in done
    ensures k / BLOCK_SIZE !in closer && k / BLOCK_SIZE !in cleared && k / BLOCK_SIZE !in freed
  {
    assert !Full(done, k / BLOCK_SIZE);
  }

  /// An index a consumer has claimed was published; until it is counted its block stays in use.
  lemma ClaimedIsLive<T>(s: State<T>, t: Thread, k: nat)
    requires Inv(s) && InJob(s.Cpc(t), k)
    ensures k < s.claims.head <= s.claims.tail
    ensures s.ring.headers != [] && k / BLOCK_SIZE < CeilBlocks(s.claims.tail) <= s.ring.Current().shown
    ensures k / BLOCK_SIZE < |s.ring.starts| <= |s.ring.entryAt|
    ensures CountedTo(s.Cpc(t)) <= k ==>
              k !in s.done && k / BLOCK_SIZE !in s.cleared && k / BLOCK_SIZE !in s.freed
              && s.ring.Low() <= k / BLOCK_SIZE
  {
    hide HeadersOk, KeysOk, RingPcOk, SlotsOk, ValsOk, BlocksOk, CountsOk, ValuesOk, ElemsOk, GotOk, RecycleOk,
        Claims.Inv, JobOk, Closing;
    Claims.OutstandingBelowTail(s.claims, []);
    RingFacts(s.ring, s.claims.tail);
    BelowCeil(k, s.claims.tail);
    assert ProgressOk(s.Cpc(t), s.got, s.done);
    if CountedTo(s.Cpc(t)) <= k { UncountedIsLive(s.done, s.closer, s.cleared, s.freed, s.cpc, k); }
  }

  /// In use, different indices live in different places.
  lemma HomesDiffer(owned: set<Block>, starts: seq<Block>, freed: set<nat>, pending: seq<Block>, k: nat, l: nat)
    requires BlocksOk(owned, starts, freed, pending)
    requires Live(starts, freed, k / BLOCK_SIZE) && Live(starts, freed, l / BLOCK_SIZE) && k != l
    ensures Home(starts, k) != Home(starts, l)
  {}

  ghost predicate SameOutside<T>(p: ConsumerPC, got: map<nat, T>, done: set<nat>, got': map<nat, T>, done': set<nat>) {
    forall k: nat | !InJob(p, k) :: (k in got' <==> k in got) && (k in done' <==> k in done)
  }

  /// A step of `t` on the indices it has claimed does not disturb the other consumers.
  lemma JobsFrame<T>(cpc: map<Thread, ConsumerPC>, claims: Claims.State, headers: seq<Header>, starts: seq<Block>,
                     got: map<nat, T>, done: set<nat>, t: Thread, p: ConsumerPC, got': map<nat, T>, done': set<nat>)
    requires JobsOk(cpc, claims, headers, starts, got, done) && !CpcOf(cpc, t).Idle?
    requires p.Idle? || (p.first == CpcOf(cpc, t).first && p.n == CpcOf(cpc, t).n)
    requires SameOutside(CpcOf(cpc, t), got, done, got', done')
    requires JobOk(p, headers, starts) && ProgressOk(p, got', done')
    ensures JobsOk(cpc[t := p], claims, headers, starts, got', done')
  {
    hide JobOk, MovedTo, CountedTo;
    var cpc' := cpc[t := p];
    assert CpcOf(cpc', t) == p && forall u: Thread | u != t :: CpcOf(cpc', u) == CpcOf(cpc, u);
    forall u: Thread ensures JobOk(CpcOf(cpc', u), headers, starts) && ProgressOk(CpcOf(cpc', u), got', done') {
      assert JobOk(CpcOf(cpc, u), headers, starts) && ProgressOk(CpcOf(cpc, u), got, done);
      if u != t && !CpcOf(cpc, u).Idle? {
        assert Apart(CpcOf(cpc, t), CpcOf(cpc, u));
        forall k: nat | InJob(CpcOf(cpc, u), k) ensures !InJob(CpcOf(cpc, t), k) {}
      }
    }
    forall u: Thread, v: Thread | u != v ensures Apart(CpcOf(cpc', u), CpcOf(cpc', v)) {
      assert Apart(CpcOf(cpc, u), CpcOf(cpc, v));
    }
  }

  lemma RecycleGoto(done: set<nat>, closer: map<nat, Thread>, cleared: set<nat>, freed: set<nat>,
                    cpc: map<Thread, ConsumerPC>, t: Thread, p: ConsumerPC)
    requires RecycleOk(done, closer, cleared, freed, cpc)
    requires !CpcOf(cpc, t).ClearEntry? && !CpcOf(cpc, t).FreeBlock? && !p.ClearEntry? && !p.FreeBlock?
    ensures RecycleOk(done, closer, cleared, freed, cpc[t := p])
  {
    hide Full;
    var cpc' := cpc[t := p];
    assert CpcOf(cpc', t) == p && forall u: Thread | u != t :: CpcOf(cpc', u) == CpcOf(cpc, u);
  }

  /// A consumer's step that changes nothing but its own program counter.
  lemma GotoKeepsInv<T>(s: State<T>, t: Thread, p: ConsumerPC)
    requires Inv(s) && !s.Cpc(t).Idle? && !s.Cpc(t).ClearEntry? && !s.Cpc(t).FreeBlock?
    requires p.Idle? || (p.first == s.Cpc(t).first && p.n == s.Cpc(t).n)
    requires !p.ClearEntry? && !p.FreeBlock?
    requires JobOk(p, s.ring.headers, s.ring.starts) && ProgressOk(p, s.got, s.done)
    ensures Inv(s.Goto(t, p))
  {
    hide RingInv, SlotsOk, ValsOk, BlocksOk, CountsOk, ValuesOk, ElemsOk, GotOk, RecycleOk, JobsOk, LowOk, EntryFree,
        Claims.Inv, JobOk, ProgressOk, Closing;
    JobsFrame(s.cpc, s.claims, s.ring.headers, s.ring.starts, s.got, s.done, t, p, s.got, s.done);
    RecycleGoto(s.done, s.closer, s.cleared, s.freed, s.cpc, t, p);
  }

  lemma ProgressSame<T>(p: ConsumerPC, p': ConsumerPC, got: map<nat, T>, done: set<nat>)
    requires !p.Idle? && !p'.Idle? && p'.first == p.first && p'.n == p.n
    requires MovedTo(p') == MovedTo(p) && CountedTo(p') == CountedTo(p) && ProgressOk(p, got, done)
    ensures ProgressOk(p', got, done)
  {
    hide MovedTo, CountedTo;
    forall k: nat | InJob(p', k) ensures (k in got <==> k < MovedTo(p')) && (k in done <==> k < CountedTo(p')) {
      assert InJob(p, k);
    }
  }

  lemma LoadHeaderStep<T>(s: State<T>, t: Thread, q: Request<T>)
    requires Inv(s) && t in s.claims.pc && s.Cpc(t).LoadHeader?
    ensures Inv(ConsumerStep(s, t, q))
  {
    hide Inv, ProgressOk, RingInv, HeaderOk;
    var p := s.Cpc(t);
    JobAt(s, t);
    ClaimedIsLive(s, t, p.first + p.n - 1);
    var p' := LoadIndexTail(p.first, p.n, |s.ring.headers| - 1);
    ProgressSame(p, p', s.got, s.done);
    GotoKeepsInv(s, t, p');
  }

  lemma LoadIndexTailStep<T>(s: State<T>, t: Thread, q: Request<T>)
    requires Inv(s) && t in s.claims.pc && s.Cpc(t).LoadIndexTail?
    ensures Inv(ConsumerStep(s, t, q))
  {
    hide Inv, ProgressOk, RingInv, SlotOf;
    var p := s.Cpc(t);
    JobAt(s, t);
    var h := s.ring.headers[p.h];
    var p' := ReadKey(p.first, p.n, p.h, h.tail, if h.at > 0 then h.at - 1 else 0);
    ProgressSame(p, p', s.got, s.done);
    GotoKeepsInv(s, t, p');
  }

  lemma KeyAt<T>(r: Ring<T>, tail: nat, h: Header, at: nat)
    requires RingInv(r, tail) && HeaderOk(h, r.entryAt) && h.low <= r.Low() <= at < h.top
    ensures KeyOf(r.keys, IndexAt(h, at)) == Wrap(at * BLOCK_SIZE)
  {
    hide RingPcOk, HeadersOk, SlotOf;
  }

  /// However the index has changed since it was loaded, the lookup lands on the slot of the block.
  lemma ReadKeyJob<T>(r: Ring<T>, tail: nat, p: ConsumerPC) returns (p': ConsumerPC)
    requires RingInv(r, tail) && p.ReadKey? && JobOk(p, r.headers, r.starts)
    requires HeaderOk(r.headers[p.h], r.entryAt) && r.headers[p.h].low <= r.Low() <= p.first / BLOCK_SIZE
    ensures var h := r.headers[p.h];
            && p.tail < |h.index|
            && p' == ReadValue(p.first, p.n, p.h,
                  SlotFrom(p.tail, BlockOffset(Wrap(p.first), KeyOf(r.keys, h.index[p.tail])), h.capacity), p.first)
    ensures JobOk(p', r.headers, r.starts)
  {
    hide RingInv;
    var h := r.headers[p.h];
    KeyAt(r, tail, h, p.p);
    PowersDivideWord(h.capacity);
    LookupIsExact(p.first, p.first / BLOCK_SIZE, p.p, h.origin, p.tail, h.capacity);
    p' := ReadValue(p.first, p.n, p.h,
        SlotFrom(p.tail, BlockOffset(Wrap(p.first), KeyOf(r.keys, h.index[p.tail])), h.capacity), p.first);
  }

  lemma ReadKeyStep<T>(s: State<T>, t: Thread, q: Request<T>)
    requires Inv(s) && t in s.claims.pc && s.Cpc(t).ReadKey?
    ensures Inv(ConsumerStep(s, t, q))
  {
    hide ProgressOk, RingInv, SlotOf, SlotsOk, ValsOk, BlocksOk, CountsOk, ValuesOk, ElemsOk, GotOk, RecycleOk,
        JobsOk, LowOk, Claims.Inv, JobOk;
    var p := s.Cpc(t);
    JobAt(s, t);
    ClaimedIsLive(s, t, p.first) by { assert InJob(p, p.first) by { JobInRange(p, s.ring.headers, s.ring.starts); } }
    var p' := ReadKeyJob(s.ring, s.claims.tail, p);
    ProgressSame(p, p', s.got, s.done);
    GotoKeepsInv(s, t, p');
  }

  lemma JobInRange(p: ConsumerPC, headers: seq<Header>, starts: seq<Block>)
    requires JobOk(p, headers, starts) && !p.Idle?
    ensures InJob(p, p.first) && InJob(p, p.first + p.n - 1)
  {}

  /// The block found is the one in which the producer constructed the element.
  lemma ReadValueJob(p: ConsumerPC, headers: seq<Header>, starts: seq<Block>, v: Block) returns (p': ConsumerPC)
    requires p.ReadValue? && JobOk(p, headers, starts) && v == BlockAt(starts, p.i / BLOCK_SIZE)
    ensures p' == MoveOut(p.first, p.n, p.h, p.slot, v, p.i, p.i)
    ensures JobOk(p', headers, starts)
  {
    hide SlotOf;
    StopIndexIsMin(p.i, p.first + p.n);
    p' := MoveOut(p.first, p.n, p.h, p.slot, v, p.i, p.i);
  }

  /// The entry at the slot is that of the wanted number: the assertion in
  /// `get_block_index_index_for_index`.
  lemma SlotHasBlock<T>(s: State<T>, t: Thread, h: Header, slot: nat, i: nat)
    requires Inv(s) && InJob(s.Cpc(t), i) && CountedTo(s.Cpc(t)) <= i
    requires HeaderOk(h, s.ring.entryAt) && h.low <= s.ring.Low() && i / BLOCK_SIZE < h.top
    requires slot == SlotOf(i / BLOCK_SIZE, h.origin, h.capacity)
    ensures slot < |h.index|
    ensures h.index[slot] == s.ring.entryAt[i / BLOCK_SIZE]
    ensures KeyOf(s.ring.keys, h.index[slot]) == Wrap(BlockBase(i))
    ensures ValOf(s.vals, h.index[slot]) == Some(BlockAt(s.ring.starts, i / BLOCK_SIZE))
  {
    hide SlotOf, HeadersOk, RingPcOk, SlotsOk, BlocksOk, CountsOk, ValuesOk, ElemsOk, GotOk, RecycleOk, JobsOk,
        Claims.Inv;
    ClaimedIsLive(s, t, i);
    RingFacts(s.ring, s.claims.tail);
    var j := i / BLOCK_SIZE;
    assert IndexAt(h, j) == s.ring.entryAt[j];
    assert j * BLOCK_SIZE == BlockBase(i);
    assert ValOf(s.vals, s.ring.entryAt[j]) == Some(s.ring.starts[j]);
  }

  lemma SlotFacts(p: ConsumerPC, headers: seq<Header>, starts: seq<Block>)
    requires JobOk(p, headers, starts) && (p.ReadValue? || p.MoveOut? || p.Count? || p.ClearEntry? || p.FreeBlock?)
    ensures var h := headers[p.h]; var i := if p.ReadValue? then p.i else p.begin;
            InJob(p, i) && h.capacity > 0 && p.slot == SlotOf(i / BLOCK_SIZE, h.origin, h.capacity)
                && i / BLOCK_SIZE < h.shown
    ensures !p.ReadValue? ==> p.block == BlockAt(starts, p.begin / BLOCK_SIZE)
  {
    hide SlotOf;
  }

  lemma ReadValueStep<T>(s: State<T>, t: Thread, q: Request<T>)
    requires Inv(s) && t in s.claims.pc && s.Cpc(t).ReadValue?
    ensures Inv(ConsumerStep(s, t, q))
  {
    hide Inv, ProgressOk, RingInv, SlotOf, JobOk;
    var p := s.Cpc(t);
    JobAt(s, t);
    SlotFacts(p, s.ring.headers, s.ring.starts);
    SlotHasBlock(s, t, s.ring.headers[p.h], p.slot, p.i);
    var p' := ReadValueJob(p, s.ring.headers, s.ring.starts, BlockAt(s.ring.starts, p.i / BLOCK_SIZE));
    ProgressSame(p, p', s.got, s.done);
    GotoKeepsInv(s, t, p');
  }

  lemma MoveOutIndex<T>(p: ConsumerPC, headers: seq<Header>, starts: seq<Block>, got: map<nat, T>, done: set<nat>)
    requires p.MoveOut? && JobOk(p, headers, starts) && ProgressOk(p, got, done)
    requires p.i != StopIndex(p.begin, p.first + p.n)
    ensures InJob(p, p.i) && p.i !in got && CountedTo(p) <= p.i
    ensures (p.block, p.i % BLOCK_SIZE) == Home(starts, p.i)
  {
    hide SlotOf;
    StopIndexIsMin(p.begin, p.first + p.n);
    SameBlock(p.begin, p.i);
    assert InJob(p, p.i);
  }

  lemma MoveOutJob<T>(p: ConsumerPC, headers: seq<Header>, starts: seq<Block>, got: map<nat, T>, done: set<nat>, v: T)
    requires p.MoveOut? && JobOk(p, headers, starts) && ProgressOk(p, got, done)
    requires p.i != StopIndex(p.begin, p.first + p.n)
    ensures JobOk(Moved(p), headers, starts)
    ensures ProgressOk(Moved(p), got[p.i := v], done)
    ensures SameOutside(p, got, done, got[p.i := v], done)
  {
    hide SlotOf;
    StopIndexIsMin(p.begin, p.first + p.n);
    var p' := Moved(p);
    assert InJob(p, p.i);
    assert forall k: nat :: InJob(p', k) <==> InJob(p, k);
  }

  lemma ElemAt<T>(elems: map<(Block, nat), T>, starts: seq<Block>, freed: set<nat>, values: seq<T>, got: map<nat, T>,
                  k: nat)
    requires ElemsOk(elems, starts, freed, values, got) && k < |values| && k !in got
    ensures Home(starts, k) in elems && elems[Home(starts, k)] == values[k]
    ensures Live(starts, freed, k / BLOCK_SIZE)
  {}

  lemma ValuesFit<T>(p: ProducerPC<T>, tail: nat, values: seq<T>)
    requires ValuesOk(p, tail, values)
    ensures tail <= |values|
    ensures !p.Construct? && !p.StoreTail? ==> |values| == tail
  {}

  /// The element a consumer is about to move out is there, and is the value enqueued at its index.
  lemma ElementIsThere<T>(s: State<T>, t: Thread)
    requires Inv(s) && s.Cpc(t).MoveOut? && s.Cpc(t).i != StopIndex(s.Cpc(t).begin, s.Cpc(t).first + s.Cpc(t).n)
    ensures var p := s.Cpc(t); var key := (p.block, p.i % BLOCK_SIZE);
            && p.i < s.claims.head <= |s.values| && key == Home(s.ring.starts, p.i) && p.i !in s.got
            && key in s.elems && s.elems[key] == s.values[p.i]
  {
    hide SlotOf, RingInv, SlotsOk, ValsOk, BlocksOk, CountsOk, ValuesOk, ElemsOk, GotOk, RecycleOk, JobsOk, LowOk,
        Claims.Inv, JobOk, ProgressOk;
    var p := s.Cpc(t);
    JobAt(s, t);
    MoveOutIndex(p, s.ring.headers, s.ring.starts, s.got, s.done);
    ClaimedIsLive(s, t, p.i);
    ValuesFit(s.ring.pc, s.claims.tail, s.values);
    ElemAt(s.elems, s.ring.starts, s.freed, s.values, s.got, p.i);
  }

  /// Moving out the element at k leaves every other element where it is.
  lemma MovedOut<T>(elems: map<(Block, nat), T>, owned: set<Block>, starts: seq<Block>, freed: set<nat>,
                    pending: seq<Block>,
                    values: seq<T>, got: map<nat, T>, k: nat)
    requires BlocksOk(owned, starts, freed, pending) && ElemsOk(elems, starts, freed, values, got)
    requires k < |values| && k !in got
    ensures ElemsOk(elems - {Home(starts, k)}, starts, freed, values, got[k := values[k]])
  {
    hide Home, Live;
    var elems', got' := elems - {Home(starts, k)}, got[k := values[k]];
    forall l: nat | l < |values| && l !in got'
      ensures Home(starts, l) in elems' && elems'[Home(starts, l)] == values[l]
    {
      assert Live(starts, freed, k / BLOCK_SIZE) && Live(starts, freed, l / BLOCK_SIZE);
      HomesDiffer(owned, starts, freed, pending, k, l);
    }
    forall x | x in elems' ensures exists l: nat :: l < |values| && l !in got' && x == Home(starts, l) {
      var l: nat :| l < |values| && l !in got && x == Home(starts, l);
      assert l !in got';
    }
  }

  lemma GotMore<T>(got: map<nat, T>, done: set<nat>, head: nat, values: seq<T>, k: nat)
    requires GotOk(got, done, head, values) && k < head
    ensures GotOk(got[k := values[k]], done, head, values)
  {}

  lemma MoveOne<T>(s: State<T>, t: Thread)
    requires Inv(s) && s.Cpc(t).MoveOut? && s.Cpc(t).i != StopIndex(s.Cpc(t).begin, s.Cpc(t).first + s.Cpc(t).n)
    requires s.Cpc(t).i < |s.values|
    ensures var k := s.Cpc(t).i;
            Inv(s.(got := s.got[k := s.values[k]], elems := s.elems - {Home(s.ring.starts, k)})
                 .Goto(t, Moved(s.Cpc(t))))
  {
    hide SlotOf, RingInv, SlotsOk, ValsOk, BlocksOk, CountsOk, ValuesOk, ElemsOk, GotOk, RecycleOk, JobsOk, LowOk,
        EntryFree, Claims.Inv, JobOk, ProgressOk;
    var p := s.Cpc(t);
    var k := p.i;
    JobAt(s, t);
    ElementIsThere(s, t);
    MoveOutJob(p, s.ring.headers, s.ring.starts, s.got, s.done, s.values[k]);
    MovedOut(s.elems, s.owned, s.ring.starts, s.freed, Pending(s.ring.pc), s.values, s.got, k);
    GotMore(s.got, s.done, s.claims.head, s.values, k);
    JobsFrame(s.cpc, s.claims, s.ring.headers, s.ring.starts, s.got, s.done, t, Moved(p), s.got[k := s.values[k]],
        s.done);
    RecycleGoto(s.done, s.closer, s.cleared, s.freed, s.cpc, t, Moved(p));
  }

  lemma CountJob(p: ConsumerPC, headers: seq<Header>, starts: seq<Block>) returns (p': ConsumerPC)
    requires p.MoveOut? && JobOk(p, headers, starts) && p.i == StopIndex(p.begin, p.first + p.n)
    ensures p' == Count(p.first, p.n, p.h, p.slot, p.block, p.begin, p.i) && JobOk(p', headers, starts)
  {
    hide SlotOf;
    p' := Count(p.first, p.n, p.h, p.slot, p.block, p.begin, p.i);
  }

  lemma MoveOutStep<T>(s: State<T>, t: Thread, q: Request<T>)
    requires Inv(s) && t in s.claims.pc && s.Cpc(t).MoveOut?
    ensures Inv(ConsumerStep(s, t, q))
  {
    hide Inv, ProgressOk, RingInv, SlotOf, JobOk;
    var p := s.Cpc(t);
    if p.i == StopIndex(p.begin, p.first + p.n) {
      JobAt(s, t);
      var p' := CountJob(p, s.ring.headers, s.ring.starts);
      ProgressSame(p, p', s.got, s.done);
      GotoKeepsInv(s, t, p');
    } else {
      ElementIsThere(s, t);
      MoveOne(s, t);
    }
  }

  // ---- counting

  lemma {:induction false} CountedBounds(done: set<nat>, base: nat, n: nat)
    ensures Counted(done, base, n) <= n
    ensures Counted(done, base, n) == n <==> forall k: nat | base <= k < base + n :: k in done
  {
    if n > 0 {
      CountedBounds(done, base, n - 1);
      assert Counted(done, base, n) == n ==> Counted(done, base, n - 1) == n - 1 && base + n - 1 in done;
      assert (forall k: nat | base <= k < base + n :: k in done) ==> base + n - 1 in done;
    }
  }

  lemma {:induction false} CountedSame(done: set<nat>, done': set<nat>, base: nat, n: nat)
    requires forall k: nat | base <= k < base + n :: k in done <==> k in done'
    ensures Counted(done', base, n) == Counted(done, base, n)
  {
    if n > 0 {
      CountedSame(done, done', base, n - 1);
      assert base + n - 1 in done <==> base + n - 1 in done';
    }
  }

  lemma {:induction false} CountedMore(done: set<nat>, begin: nat, end: nat, base: nat, n: nat)
    requires base <= begin <= end <= base + n
    requires forall k: nat | begin <= k < end :: k !in done
    ensures Counted(done + Range(begin, end), base, n) == Counted(done, base, n) + (end - begin)
  {
    var done' := done + Range(begin, end);
    if n > 0 {
      var k := base + n - 1;
      if end == base + n && begin < end {
        CountedMore(done, begin, k, base, n - 1);
        CountedSame(done + Range(begin, k), done', base, n - 1);
      } else if end == base + n {
        assert done' == done;
      } else {
        CountedMore(done, begin, end, base, n - 1);
      }
    }
  }

  lemma FullWhenCounted(done: set<nat>, j: nat)
    ensures Counted(done, j * BLOCK_SIZE, BLOCK_SIZE) == BLOCK_SIZE <==> Full(done, j)
  {
    CountedBounds(done, j * BLOCK_SIZE, BLOCK_SIZE);
    assert forall k: nat :: k / BLOCK_SIZE == j <==> j * BLOCK_SIZE <= k < j * BLOCK_SIZE + BLOCK_SIZE;
  }

  /// The segment a consumer is about to count lies in one block, and none of it has been counted.
  lemma CountSegment<T>(p: ConsumerPC, headers: seq<Header>, starts: seq<Block>, got: map<nat, T>, done: set<nat>)
    requires p.Count? && JobOk(p, headers, starts) && ProgressOk(p, got, done)
    ensures var base := p.begin / BLOCK_SIZE * BLOCK_SIZE;
            base <= p.begin < p.end <= base + BLOCK_SIZE && p.end <= p.first + p.n && p.first <= p.begin
    ensures forall k: nat | p.begin <= k < p.end :: InJob(p, k) && k !in done && k in got
    ensures forall k: nat | p.first <= k < p.begin :: k in done && k in got
    ensures forall k: nat | p.end <= k < p.first + p.n :: k !in done && k !in got
  {
    hide SlotOf;
    StopIndexIsMin(p.begin, p.first + p.n);
    forall k: nat | InJob(p, k) ensures (k in got <==> k < p.end) && (k in done <==> k < p.begin) {}
    assert forall k: nat | p.first <= k < p.first + p.n :: InJob(p, k);
  }

  lemma CountsMore<T>(counts: map<Block, nat>, owned: set<Block>, starts: seq<Block>, freed: set<nat>,
                      pending: seq<Block>,
                      done: set<nat>, pc: ProducerPC<T>, begin: nat, end: nat)
    requires BlocksOk(owned, starts, freed, pending) && CountsOk(counts, starts, freed, done, pc)
              && pending == Pending(pc)
    requires var j := begin / BLOCK_SIZE;
             Live(starts, freed, j) && j * BLOCK_SIZE <= begin < end <= j * BLOCK_SIZE + BLOCK_SIZE
    requires forall k: nat | begin <= k < end :: k !in done
    ensures var b := BlockAt(starts, begin / BLOCK_SIZE); var count := CountOf(counts, b) + (end - begin);
            CountsOk(counts[b := count], starts, freed, done + Range(begin, end), pc)
            && (count == BLOCK_SIZE <==> Full(done + Range(begin, end), begin / BLOCK_SIZE))
            && !Full(done, begin / BLOCK_SIZE)
  {
    hide Full;
    var j, done' := begin / BLOCK_SIZE, done + Range(begin, end);
    var b := BlockAt(starts, j);
    var counts' := counts[b := CountOf(counts, b) + (end - begin)];
    CountedMore(done, begin, end, j * BLOCK_SIZE, BLOCK_SIZE);
    FullWhenCounted(done', j);
    FullWhenCounted(done, j);
    CountedBounds(done', j * BLOCK_SIZE, BLOCK_SIZE);
    forall i | Live(starts, freed, i)
      ensures CountOf(counts', starts[i]) == Counted(done', i * BLOCK_SIZE, BLOCK_SIZE) {
      if i != j {
        assert starts[i] != starts[j];
        OtherBlock(done, begin, end, i);
      }
    }
    assert pc.StoreValue? ==> pc.block in Pending(pc) && starts[j] !in pending;
  }

  lemma OtherBlock(done: set<nat>, begin: nat, end: nat, i: nat)
    requires var j := begin / BLOCK_SIZE; j != i && j * BLOCK_SIZE <= begin < end <= j * BLOCK_SIZE + BLOCK_SIZE
    ensures Counted(done + Range(begin, end), i * BLOCK_SIZE, BLOCK_SIZE) == Counted(done, i * BLOCK_SIZE, BLOCK_SIZE)
  {
    CountedSame(done, done + Range(begin, end), i * BLOCK_SIZE, BLOCK_SIZE);
  }

  lemma GotDone<T>(got: map<nat, T>, done: set<nat>, head: nat, values: seq<T>, begin: nat, end: nat)
    requires GotOk(got, done, head, values) && forall k: nat | begin <= k < end :: k in got
    ensures GotOk(got, done + Range(begin, end), head, values)
  {}

  lemma NextPlace(begin: nat, end: nat, h: Header, slot: nat)
    requires begin < end && end == begin - begin % BLOCK_SIZE + BLOCK_SIZE
    requires h.capacity > 0 && PowerOfTwo(h.capacity) && h.capacity <= HALF
              && slot == SlotOf(begin / BLOCK_SIZE, h.origin, h.capacity)
    ensures end % BLOCK_SIZE == 0
    ensures Wrap(slot + 1) % h.capacity == SlotOf(end / BLOCK_SIZE, h.origin, h.capacity)
  {
    assert end / BLOCK_SIZE == begin / BLOCK_SIZE + 1;
    NextFront(slot, end / BLOCK_SIZE, h.origin, h.capacity);
  }

  lemma NextSegmentJob(p: ConsumerPC, headers: seq<Header>, starts: seq<Block>, entryAt: seq<Entry>)
    requires (p.Count? || p.FreeBlock?) && JobOk(p, headers, starts) && HeaderOk(headers[p.h], entryAt)
    ensures JobOk(NextSegment(p, headers[p.h]), headers, starts)
    ensures var p' := NextSegment(p, headers[p.h]);
            p'.Idle? || (p'.ReadValue? && p'.first == p.first && p'.n == p.n && p'.i == p.end)
  {
    hide SlotOf, Wrap;
    StopIndexIsMin(p.begin, p.first + p.n);
    if p.end != p.first + p.n { NextPlace(p.begin, p.end, headers[p.h], p.slot); }
  }

  lemma CountProgress<T>(p: ConsumerPC, p': ConsumerPC, headers: seq<Header>, starts: seq<Block>, got: map<nat, T>,
                         done: set<nat>)
    requires p.Count? && JobOk(p, headers, starts) && ProgressOk(p, got, done)
    requires p'.Idle? || (p'.first == p.first && p'.n == p.n && MovedTo(p') == p.end == CountedTo(p'))
    ensures ProgressOk(p', got, done + Range(p.begin, p.end))
    ensures SameOutside(p, got, done, got, done + Range(p.begin, p.end))
  {
    hide MovedTo, CountedTo, JobOk, ProgressOk;
    CountSegment(p, headers, starts, got, done);
    assert ProgressOk(p', got, done + Range(p.begin, p.end)) by { DoneUpTo(p, p', got, done); }
  }

  lemma DoneUpTo<T>(p: ConsumerPC, p': ConsumerPC, got: map<nat, T>, done: set<nat>)
    requires p.Count? && p.begin <= p.end
    requires forall k: nat | p.begin <= k < p.end :: k in got
    requires forall k: nat | p.first <= k < p.begin :: k in done && k in got
    requires forall k: nat | p.end <= k < p.first + p.n :: k !in done && k !in got
    requires p'.Idle? || (p'.first == p.first && p'.n == p.n && MovedTo(p') == p.end == CountedTo(p'))
    ensures ProgressOk(p', got, done + Range(p.begin, p.end))
  {
    hide MovedTo, CountedTo;
  }

  lemma RecycleCount(done: set<nat>, closer: map<nat, Thread>, cleared: set<nat>, freed: set<nat>,
                     cpc: map<Thread, ConsumerPC>,
                     t: Thread, p': ConsumerPC, begin: nat, end: nat, full: bool)
    requires RecycleOk(done, closer, cleared, freed, cpc) && CpcOf(cpc, t).Count?
    requires var j := begin / BLOCK_SIZE; j * BLOCK_SIZE <= begin < end <= j * BLOCK_SIZE + BLOCK_SIZE
    requires !Full(done, begin / BLOCK_SIZE) && (full <==> Full(done + Range(begin, end), begin / BLOCK_SIZE))
    requires if full then p'.ClearEntry? && p'.begin == begin else !p'.ClearEntry? && !p'.FreeBlock?
    ensures RecycleOk(done + Range(begin, end), if full then closer[begin / BLOCK_SIZE := t]
              else closer, cleared, freed, cpc[t := p'])
  {
    var j, done', cpc' := begin / BLOCK_SIZE, done + Range(begin, end), cpc[t := p'];
    var closer' := if full then closer[j := t] else closer;
    assert CpcOf(cpc', t) == p' && forall u: Thread | u != t :: CpcOf(cpc', u) == CpcOf(cpc, u);
    assert j !in closer;
    forall i: nat | i != j ensures Full(done', i) <==> Full(done, i) { OtherFull(done, begin, end, i); }
    forall i: nat ensures i in closer' <==> Full(done', i) {
      assert i in closer <==> Full(done, i);
    }
    forall i: nat | i in closer' ensures i in freed || Closing(CpcOf(cpc', closer'[i]), i) {
      if i != j { assert i in freed || Closing(CpcOf(cpc, closer[i]), i); }
    }
  }

  lemma OtherFull(done: set<nat>, begin: nat, end: nat, i: nat)
    requires var j := begin / BLOCK_SIZE; j != i && j * BLOCK_SIZE <= begin < end <= j * BLOCK_SIZE + BLOCK_SIZE
    ensures Full(done + Range(begin, end), i) <==> Full(done, i)
  {
    if Full(done + Range(begin, end), i) {
      forall k: nat | k / BLOCK_SIZE == i ensures k in done { assert k in done + Range(begin, end); }
    }
  }

  lemma CountAll<T>(s: State<T>, t: Thread) returns (full: bool)
    requires Inv(s) && s.Cpc(t).Count?
    ensures var p := s.Cpc(t); var count := CountOf(s.counts, p.block) + (p.end - p.begin);
            && p.begin < p.end && p.h < |s.ring.headers| && (full <==> count == BLOCK_SIZE)
            && Inv(s.(counts := s.counts[p.block := count], done := s.done + Range(p.begin, p.end),
                      closer := if full then s.closer[p.begin / BLOCK_SIZE := t] else s.closer)
                    .Goto(t, AfterCount(p, s.ring.headers[p.h], full)))
  {
    hide SlotOf, RingInv, SlotsOk, ValsOk, BlocksOk, CountsOk, ValuesOk, ElemsOk, GotOk, RecycleOk, JobsOk, LowOk,
        EntryFree, Claims.Inv, JobOk, ProgressOk, HeaderOk, Full;
    var p := s.Cpc(t);
    JobAt(s, t);
    SlotFacts(p, s.ring.headers, s.ring.starts);
    CountSegment(p, s.ring.headers, s.ring.starts, s.got, s.done);
    ClaimedIsLive(s, t, p.begin);
    CountsMore(s.counts, s.owned, s.ring.starts, s.freed, Pending(s.ring.pc), s.done, s.ring.pc, p.begin, p.end);
    full := CountOf(s.counts, p.block) + (p.end - p.begin) == BLOCK_SIZE;
    var p' := AfterCount(p, s.ring.headers[p.h], full);
    NextSegmentJob(p, s.ring.headers, s.ring.starts, s.ring.entryAt);
    if full { ClosingJob(p, s.ring.headers, s.ring.starts); }
    CountProgress(p, p', s.ring.headers, s.ring.starts, s.got, s.done);
    GotDone(s.got, s.done, s.claims.head, s.values, p.begin, p.end);
    JobsFrame(s.cpc, s.claims, s.ring.headers, s.ring.starts, s.got, s.done, t, p', s.got,
        s.done + Range(p.begin, p.end));
    RecycleCount(s.done, s.closer, s.cleared, s.freed, s.cpc, t, p', p.begin, p.end, full);
  }

  lemma ClosingJob(p: ConsumerPC, headers: seq<Header>, starts: seq<Block>)
    requires (p.Count? || p.ClearEntry?) && JobOk(p, headers, starts)
    ensures JobOk(if p.Count? then ClearEntry(p.first, p.n, p.h, p.slot, p.block, p.begin, p.end)
                  else FreeBlock(p.first, p.n, p.h, p.slot, p.block, p.begin, p.end), headers, starts)
  {
    hide SlotOf, StopIndex;
  }

  lemma CountStep<T>(s: State<T>, t: Thread, q: Request<T>)
    requires Inv(s) && t in s.claims.pc && s.Cpc(t).Count?
    ensures Inv(ConsumerStep(s, t, q))
  {
    hide Inv;
    var full := CountAll(s, t);
  }

  // ---- recycling

  /// What is known of a consumer that has seen a block become empty.
  lemma ClosingFacts<T>(s: State<T>, t: Thread)
    requires Inv(s) && (s.Cpc(t).ClearEntry? || s.Cpc(t).FreeBlock?)
    ensures var p := s.Cpc(t); var j := p.begin / BLOCK_SIZE;
            && Live(s.ring.starts, s.freed, j) && s.ring.starts[j] == p.block && Full(s.done, j)
            && j in s.closer && s.closer[j] == t && (j in s.cleared <==> p.FreeBlock?)
            && j < CeilBlocks(s.claims.tail)
            && p.h < |s.ring.headers| && p.slot < |s.ring.headers[p.h].index|
            && (p.ClearEntry? ==>
                  s.ring.Low() <= j < |s.ring.entryAt| && s.ring.headers[p.h].index[p.slot] == s.ring.entryAt[j])
  {
    hide SlotOf, RingInv, SlotsOk, ValsOk, BlocksOk, CountsOk, ValuesOk, ElemsOk, GotOk, JobsOk, Claims.Inv, JobOk,
        ProgressOk, Full;
    var p := s.Cpc(t);
    JobAt(s, t);
    SlotFacts(p, s.ring.headers, s.ring.starts);
    ClaimedIsLive(s, t, p.begin);
    var h := s.ring.headers[p.h];
    SlotInIndex(h, s.ring.entryAt, p.begin / BLOCK_SIZE);
  }

  lemma SlotInIndex(h: Header, entryAt: seq<Entry>, j: nat)
    requires HeaderOk(h, entryAt)
    ensures SlotOf(j, h.origin, h.capacity) < |h.index|
    ensures h.low <= j < h.top ==> h.index[SlotOf(j, h.origin, h.capacity)] == entryAt[j]
    ensures h.shown <= h.top <= |entryAt|
  {
    hide SlotOf;
    if h.low <= j < h.top { assert IndexAt(h, j) == entryAt[j]; }
  }

  /// Clearing the entry of number j.
  lemma ValsCleared<T>(vals: map<Entry, Block>, keys: map<Entry, nat>, entryAt: seq<Entry>, low: nat, allotted: nat,
                       starts: seq<Block>, pc: ProducerPC<T>, cleared: set<nat>, j: nat)
    requires KeysOk(keys, entryAt, low, allotted) && ValsOk(vals, entryAt, low, starts, pc, cleared)
              && low <= j < |entryAt|
    ensures ValsOk(vals - {entryAt[j]}, entryAt, low, starts, pc, cleared + {j})
  {
    forall q: nat | low <= q < |entryAt|
      ensures ValOf(vals - {entryAt[j]}, entryAt[q]) ==
                if q < |starts| && q !in cleared + {j} && !Reverted(pc, q) then Some(starts[q]) else None
    {
      if q < j { assert entryAt[q] != entryAt[j]; } else if j < q { assert entryAt[j] != entryAt[q]; }
    }
  }

  lemma SlotsCleared(headers: seq<Header>, vals: map<Entry, Block>, allotted: nat, e: Entry)
    requires SlotsOk(headers, vals, allotted)
    ensures SlotsOk(headers, vals - {e}, allotted)
  {
    hide IndexAt;
  }

  lemma RecycleClear(done: set<nat>, closer: map<nat, Thread>, cleared: set<nat>, freed: set<nat>,
                     cpc: map<Thread, ConsumerPC>, t: Thread, p': ConsumerPC)
    requires RecycleOk(done, closer, cleared, freed, cpc) && CpcOf(cpc, t).ClearEntry?
    requires p'.FreeBlock? && p'.begin == CpcOf(cpc, t).begin
    ensures RecycleOk(done, closer, cleared + {p'.begin / BLOCK_SIZE}, freed, cpc[t := p'])
  {
    hide Full;
    var cpc' := cpc[t := p'];
    assert CpcOf(cpc', t) == p' && forall u: Thread | u != t :: CpcOf(cpc', u) == CpcOf(cpc, u);
  }

  lemma RecycleFree(done: set<nat>, closer: map<nat, Thread>, cleared: set<nat>, freed: set<nat>,
                    cpc: map<Thread, ConsumerPC>, t: Thread, p': ConsumerPC)
    requires RecycleOk(done, closer, cleared, freed, cpc) && CpcOf(cpc, t).FreeBlock?
    requires !p'.ClearEntry? && !p'.FreeBlock?
    ensures RecycleOk(done, closer, cleared, freed + {CpcOf(cpc, t).begin / BLOCK_SIZE}, cpc[t := p'])
  {
    hide Full;
    var cpc' := cpc[t := p'];
    assert CpcOf(cpc', t) == p' && forall u: Thread | u != t :: CpcOf(cpc', u) == CpcOf(cpc, u);
  }

  lemma SameJobOutside<T>(p: ConsumerPC, got: map<nat, T>, done: set<nat>)
    ensures SameOutside(p, got, done, got, done)
  {}

  lemma ClearEntryStep<T>(s: State<T>, t: Thread, q: Request<T>)
    requires Inv(s) && t in s.claims.pc && s.Cpc(t).ClearEntry?
    ensures Inv(ConsumerStep(s, t, q))
  {
    hide SlotOf, HeadersOk, KeysOk, RingPcOk, SlotsOk, ValsOk, BlocksOk, CountsOk, ValuesOk, ElemsOk, GotOk,
        RecycleOk, JobsOk, Claims.Inv, JobOk, ProgressOk, HeaderOk, Full;
    var p, r := s.Cpc(t), s.ring;
    var j := p.begin / BLOCK_SIZE;
    JobAt(s, t);
    ClosingFacts(s, t);
    var p' := FreeBlock(p.first, p.n, p.h, p.slot, p.block, p.begin, p.end);
    ClosingJob(p, r.headers, r.starts);
    ProgressSame(p, p', s.got, s.done);
    SameJobOutside(p, s.got, s.done);
    JobsFrame(s.cpc, s.claims, r.headers, r.starts, s.got, s.done, t, p', s.got, s.done);
    RecycleClear(s.done, s.closer, s.cleared, s.freed, s.cpc, t, p');
    ValsCleared(s.vals, r.keys, r.entryAt, r.Low(), r.allotted, r.starts, r.pc, s.cleared, j);
    SlotsCleared(r.headers, s.vals, r.allotted, r.entryAt[j]);
  }

  lemma BlocksReturned(owned: set<Block>, starts: seq<Block>, freed: set<nat>, pending: seq<Block>, j: nat)
    requires BlocksOk(owned, starts, freed, pending) && Live(starts, freed, j)
    ensures BlocksOk(owned - {starts[j]}, starts, freed + {j}, pending)
  {
    var owned', freed' := owned - {starts[j]}, freed + {j};
    forall i | Live(starts, freed', i) ensures starts[i] in owned' && starts[i] !in pending {
      assert Live(starts, freed, i);
    }
    forall b | b in owned' ensures b in pending || exists i :: Live(starts, freed', i) && starts[i] == b {
      if b !in pending {
        var i :| Live(starts, freed, i) && starts[i] == b;
        assert Live(starts, freed', i);
      }
    }
  }

  lemma ElemsReturned<T>(elems: map<(Block, nat), T>, starts: seq<Block>, freed: set<nat>, values: seq<T>,
                         got: map<nat, T>, done: set<nat>, head: nat, j: nat)
    requires ElemsOk(elems, starts, freed, values, got) && GotOk(got, done, head, values) && Full(done, j)
    ensures ElemsOk(elems, starts, freed + {j}, values, got)
  {
    forall k: nat | k < |values| && k !in got ensures Live(starts, freed + {j}, k / BLOCK_SIZE) {
      assert Live(starts, freed, k / BLOCK_SIZE);
    }
  }

  lemma CountsReturned<T>(counts: map<Block, nat>, starts: seq<Block>, freed: set<nat>, done: set<nat>,
                          pc: ProducerPC<T>, j: nat)
    requires CountsOk(counts, starts, freed, done, pc)
    ensures CountsOk(counts, starts, freed + {j}, done, pc)
  {
    forall i | Live(starts, freed + {j}, i)
      ensures CountOf(counts, starts[i]) == Counted(done, i * BLOCK_SIZE, BLOCK_SIZE) {
      assert Live(starts, freed, i);
    }
  }

  lemma FreeOne<T>(s: State<T>, t: Thread)
    requires Inv(s) && s.Cpc(t).FreeBlock?
    ensures var p := s.Cpc(t);
            && p.h < |s.ring.headers|
            && Inv(s.(owned := s.owned - {p.block}, freed := s.freed + {p.begin / BLOCK_SIZE})
                 .Goto(t, NextSegment(p, s.ring.headers[p.h])))
  {
    hide SlotOf, RingInv, LowOk, EntryFree, SlotsOk, ValsOk, BlocksOk, CountsOk, ValuesOk, ElemsOk, GotOk, RecycleOk,
        JobsOk, Claims.Inv, JobOk, ProgressOk, HeaderOk, Full, NextSegment;
    var p, r := s.Cpc(t), s.ring;
    var j := p.begin / BLOCK_SIZE;
    JobAt(s, t);
    ClosingFacts(s, t);
    var p' := NextSegment(p, r.headers[p.h]);
    NextSegmentJob(p, r.headers, r.starts, r.entryAt);
    if p'.Idle? { IdleProgress(s.got, s.done); } else { ProgressSame(p, p', s.got, s.done); }
    SameJobOutside(p, s.got, s.done);
    JobsFrame(s.cpc, s.claims, r.headers, r.starts, s.got, s.done, t, p', s.got, s.done);
    RecycleFree(s.done, s.closer, s.cleared, s.freed, s.cpc, t, p');
    BlocksReturned(s.owned, r.starts, s.freed, Pending(r.pc), j);
    ElemsReturned(s.elems, r.starts, s.freed, s.values, s.got, s.done, s.claims.head, j);
    CountsReturned(s.counts, r.starts, s.freed, s.done, r.pc, j);
  }

  lemma FreeBlockStep<T>(s: State<T>, t: Thread, q: Request<T>)
    requires Inv(s) && t in s.claims.pc && s.Cpc(t).FreeBlock?
    ensures Inv(ConsumerStep(s, t, q))
  {
    hide Inv;
    FreeOne(s, t);
  }

  lemma IdleProgress<T>(got: map<nat, T>, done: set<nat>)
    ensures ProgressOk(Idle, got, done)
  {}

  // ---- claiming

  lemma JobsClaim<T>(s: State<T>, claims: Claims.State, t: Thread, n: nat)
    requires JobsOk(s.cpc, s.claims, s.ring.headers, s.ring.starts, s.got, s.done) && s.Cpc(t).Idle? && 0 < n < HALF
    requires claims.head == s.claims.head + n && claims.pc == s.claims.pc[t := Claims.Idle]
    requires GotOk(s.got, s.done, s.claims.head, s.values)
    ensures JobsOk(s.cpc[t := LoadHeader(s.claims.head, n)], claims, s.ring.headers, s.ring.starts, s.got, s.done)
  {
    hide AtHeader;
    var cpc' := s.cpc[t := LoadHeader(s.claims.head, n)];
    assert CpcOf(cpc', t) == LoadHeader(s.claims.head, n)
        && forall u: Thread | u != t :: CpcOf(cpc', u) == CpcOf(s.cpc, u);
    forall u: Thread ensures JobOk(CpcOf(cpc', u), s.ring.headers, s.ring.starts)
        && ProgressOk(CpcOf(cpc', u), s.got, s.done) {
      assert JobOk(CpcOf(s.cpc, u), s.ring.headers, s.ring.starts) && ProgressOk(CpcOf(s.cpc, u), s.got, s.done);
    }
    forall u: Thread, v: Thread | u != v ensures Apart(CpcOf(cpc', u), CpcOf(cpc', v)) {
      assert Apart(CpcOf(s.cpc, u), CpcOf(s.cpc, v));
    }
  }

  lemma JobsSame<T>(s: State<T>, claims: Claims.State, t: Thread)
    requires JobsOk(s.cpc, s.claims, s.ring.headers, s.ring.starts, s.got, s.done) && s.Cpc(t).Idle?
    requires claims.head >= s.claims.head && t in claims.pc && claims.pc == s.claims.pc[t := claims.pc[t]]
    ensures JobsOk(s.cpc, claims, s.ring.headers, s.ring.starts, s.got, s.done)
  {
    hide JobOk, ProgressOk;
  }

  lemma GotBelow<T>(got: map<nat, T>, done: set<nat>, head: nat, head': nat, values: seq<T>)
    requires GotOk(got, done, head, values) && head <= head' <= |values|
    ensures GotOk(got, done, head', values)
  {}

  /// A step of the claim protocol that grants nothing.
  lemma ClaimGoesOn<T>(s: State<T>, claims: Claims.State, t: Thread)
    requires Inv(s) && Claims.Inv(claims) && s.Cpc(t).Idle? && t in claims.pc
              && claims.pc == s.claims.pc[t := claims.pc[t]]
    requires claims.tail == s.claims.tail && s.claims.head <= claims.head
    ensures Inv(s.(claims := claims))
  {
    hide RingInv, SlotsOk, ValsOk, BlocksOk, CountsOk, ValuesOk, ElemsOk, GotOk, RecycleOk, JobsOk, LowOk, EntryFree,
        Claims.Inv;
    ValuesFit(s.ring.pc, s.claims.tail, s.values);
    Claims.OutstandingBelowTail(claims, []);
    GotBelow(s.got, s.done, s.claims.head, claims.head, s.values);
    JobsSame(s, claims, t);
  }

  /// A consumer that has added its grant to the head index starts on the indices it got.
  lemma ClaimSucceeds<T>(s: State<T>, claims: Claims.State, t: Thread, n: nat)
    requires Inv(s) && Claims.Inv(claims) && s.Cpc(t).Idle? && 0 < n < HALF
              && claims.pc == s.claims.pc[t := Claims.Idle]
    requires claims.tail == s.claims.tail && claims.head == s.claims.head + n
    ensures Inv(s.(claims := claims).Goto(t, LoadHeader(s.claims.head, n)))
  {
    hide RingInv, SlotsOk, ValsOk, BlocksOk, CountsOk, ValuesOk, ElemsOk, GotOk, RecycleOk, JobsOk, LowOk, EntryFree,
        Claims.Inv;
    ValuesFit(s.ring.pc, s.claims.tail, s.values);
    Claims.OutstandingBelowTail(claims, []);
    GotBelow(s.got, s.done, s.claims.head, claims.head, s.values);
    JobsClaim(s, claims, t, n);
    RecycleGoto(s.done, s.closer, s.cleared, s.freed, s.cpc, t, LoadHeader(s.claims.head, n));
  }

  lemma ClaimStepKeepsInv<T>(s: State<T>, t: Thread, q: Request<T>)
    requires Inv(s) && t in s.claims.pc && s.Cpc(t).Idle? && Claims.InRange(s.claims, t)
    ensures Inv(ConsumerStep(s, t, q))
  {
    hide Inv, Claims.Inv, Claims.Step;
    var q' := if q.Dequeue? then Claims.Dequeue(q.max) else Claims.Go;
    var c', p := Claims.Step(s.claims, t, q'), s.claims.pc[t];
    assert Claims.Inv(s.claims) by { ClaimsPart(s); }
    Claims.StepKeepsInv(s.claims, t, q');
    Claims.StepEffect(s.claims, t, q');
    if p.Advance? && p.granted > 0 {
      Claims.ClaimIsBelowTail(s.claims, t);
      ClaimSucceeds(s, c', t, p.granted);
    } else {
      ClaimGoesOn(s, c', t);
    }
  }

  lemma ClaimsPart<T>(s: State<T>)
    requires Inv(s)
    ensures Claims.Inv(s.claims)
  {}

  lemma ConsumerKeepsInv<T>(s: State<T>, t: Thread, q: Request<T>)
    requires Inv(s) && t in s.claims.pc && Claims.InRange(s.claims, t)
    ensures Inv(ConsumerStep(s, t, q))
  {
    hide Inv, ConsumerStep;
    match s.Cpc(t) {
      case Idle => ClaimStepKeepsInv(s, t, q);
      case LoadHeader(_, _) => LoadHeaderStep(s, t, q);
      case LoadIndexTail(_, _, _) => LoadIndexTailStep(s, t, q);
      case ReadKey(_, _, _, _, _) => ReadKeyStep(s, t, q);
      case ReadValue(_, _, _, _, _) => ReadValueStep(s, t, q);
      case MoveOut(_, _, _, _, _, _, _) => MoveOutStep(s, t, q);
      case Count(_, _, _, _, _, _, _) => CountStep(s, t, q);
      case ClearEntry(_, _, _, _, _, _, _) => ClearEntryStep(s, t, q);
      case FreeBlock(_, _, _, _, _, _, _) => FreeBlockStep(s, t, q);
    }
  }

  // --------------------------------------------------- the producer keeps it

  lemma PreviousBaseIsExact(tail: nat)
    ensures PreviousBase(tail) == Wrap(CeilBlocks(tail) * BLOCK_SIZE - BLOCK_SIZE)
  {
    WrapDifference(tail, 1);
    BlockBaseOfWord(tail - 1);
    LastBase(tail);
  }

  lemma NextBaseIsExact(i: int)
    ensures Wrap(Wrap(i * BLOCK_SIZE - BLOCK_SIZE) + BLOCK_SIZE) == Wrap(i * BLOCK_SIZE)
    ensures Wrap(Wrap(i * BLOCK_SIZE) + BLOCK_SIZE) == Wrap((i + 1) * BLOCK_SIZE)
  {
    WrapDifference(i * BLOCK_SIZE - BLOCK_SIZE, 0 - BLOCK_SIZE);
    WrapDifference(i * BLOCK_SIZE, 0 - BLOCK_SIZE);
  }

  /// The blocks from the first linked one on are in use: not all their elements can be gone.
  lemma UnfinishedIsLive<T>(s: State<T>, j: nat)
    requires Inv(s) && LinkedFrom(s.claims.tail) <= j
    ensures j !in s.freed && j !in s.cleared
  {
    hide RingInv, SlotsOk, ValsOk, BlocksOk, CountsOk, ValuesOk, ElemsOk, JobsOk, Claims.Inv, Closing;
    Claims.OutstandingBelowTail(s.claims, []);
    var k := j * BLOCK_SIZE + BLOCK_SIZE - 1;
    LastOfBlock(s.claims.tail, j);
    assert k !in s.got;
    UncountedIsLive(s.done, s.closer, s.cleared, s.freed, s.cpc, k);
  }

  lemma LastOfBlock(tail: nat, j: nat)
    requires LinkedFrom(tail) <= j
    ensures tail <= j * BLOCK_SIZE + BLOCK_SIZE - 1 && (j * BLOCK_SIZE + BLOCK_SIZE - 1) / BLOCK_SIZE == j
  {}

  /// Only published blocks leave the index.
  lemma LowIsPublished<T>(s: State<T>)
    requires Inv(s)
    ensures s.ring.Low() <= CeilBlocks(s.claims.tail)
  {
    hide RingInv, SlotsOk, ValsOk, BlocksOk, CountsOk, ValuesOk, ElemsOk, JobsOk, RecycleOk, GotOk, Claims.Inv;
    if s.ring.Low() > CeilBlocks(s.claims.tail) {
      UnfinishedIsLive(s, CeilBlocks(s.claims.tail));
    }
  }

  ghost predicate DistinctFrom(starts: seq<Block>, from: int) {
    forall i, j | 0 <= i < j < |starts| && from <= i :: starts[i] != starts[j]
  }

  lemma UnfinishedDistinct<T>(s: State<T>)
    requires Inv(s)
    ensures DistinctFrom(s.ring.starts, LinkedFrom(s.claims.tail))
    ensures forall j | 0 <= j < |s.ring.starts| && LinkedFrom(s.claims.tail) <= j :: Live(s.ring.starts, s.freed, j)
  {
    hide RingInv, SlotsOk, ValsOk, BlocksOk, CountsOk, ValuesOk, ElemsOk, JobsOk, RecycleOk, GotOk, LowOk, EntryFree,
        Claims.Inv, LinkedFrom;
    forall j | 0 <= j < |s.ring.starts| && LinkedFrom(s.claims.tail) <= j ensures Live(s.ring.starts, s.freed, j) {
      UnfinishedIsLive(s, j);
    }
    assert BlocksOk(s.owned, s.ring.starts, s.freed, Pending(s.ring.pc));
    LiveDistinct(s.owned, s.ring.starts, s.freed, Pending(s.ring.pc), LinkedFrom(s.claims.tail));
  }

  lemma LiveDistinct(owned: set<Block>, starts: seq<Block>, freed: set<nat>, pending: seq<Block>, from: int)
    requires BlocksOk(owned, starts, freed, pending)
    requires forall j | 0 <= j < |starts| && from <= j :: Live(starts, freed, j)
    ensures DistinctFrom(starts, from)
  {}

  // ---- the ring

  lemma BeginsOp<T>(r: Ring<T>, tail: nat, values: seq<T>, bulk: bool)
    requires RingPcOk(r, tail) && r.pc.Resting? && (bulk || |values| == 1) && |values| < HALF
    ensures RingPcOk(r.At(Begin(r, tail, values, bulk)), tail)
  {
    hide SlotOf, BlocksNeeded, FirstBase;
    NeedIsExact(tail, |values|, bulk);
    if bulk || tail % BLOCK_SIZE == 0 {
      BaseIsExact(tail, bulk);
    } else {
      NeedNone(tail);
    }
  }

  lemma StartBlockIs<T>(r: Ring<T>, tail: nat, op: Op<T>)
    requires OpOk(r, tail, op) && op.need == 0 && |r.starts| > 0
    ensures var b := if tail % BLOCK_SIZE == 0 && op.first.Some? then op.first else op.startBlock;
            var j :=
              if tail % BLOCK_SIZE == 0 && op.first.None? && tail > 0 then tail / BLOCK_SIZE - 1 else tail / BLOCK_SIZE;
            j < |r.starts| && b == Some(r.starts[j]) && (LinkedFrom(tail) <= j || j == |r.starts| - 1)
  {
    hide LinksOk;
  }

  /// The first run of a construction starts in the block of the tail index.
  lemma BeginsConstruct<T>(r: Ring<T>, tail: nat, op: Op<T>)
    requires Allocating(r, tail, op) && op.need == 0
    ensures RingPcOk(BeginConstruct(r, tail, op), tail)
  {
    hide LinksOk, Listed, LinkedFrom, StopIndex;
    WrapModulo(tail, BLOCK_SIZE);
    StopIndexIsMin(tail, tail + |op.values|);
    if |r.starts| > 0 { StartBlockIs(r, tail, op); }
    var r' := BeginConstruct(r, tail, op);
    assert LinksOk(r', tail, op) by { LinksSame(r, r', tail, op); }
    assert Listed(r', tail, |r'.starts|) by { ListedSame(r, r', tail, |r.starts|); }
  }

  lemma LinksSame<T>(r: Ring<T>, r': Ring<T>, tail: nat, op: Op<T>)
    requires LinksOk(r, tail, op) && r'.starts == r.starts && r'.next == r.next
    ensures LinksOk(r', tail, op)
  {}

  lemma ListedSame<T>(r: Ring<T>, r': Ring<T>, tail: nat, at: int)
    requires Listed(r, tail, at) && r'.starts == r.starts && r'.headers == r.headers && r'.entryAt == r.entryAt
    ensures Listed(r', tail, at)
  {}

  lemma Fails<T>(r: Ring<T>, tail: nat, op: Op<T>)
    requires Allocating(r, tail, op) && op.need > 0
    ensures RingPcOk(r.At(Fail(tail, op)), tail)
  {
    hide LinksOk, Listed;
    var r' := r.At(Fail(tail, op));
    PreviousBaseIsExact(tail);
    LinksSame(r, r', tail, op);
    ListedSame(r, r', tail, |r.starts|);
  }

  lemma NextSlotIs(h: Header, entryAt: seq<Entry>, c: nat)
    requires HeaderOk(h, entryAt) && h.at == c
    ensures NextSlot(h) == SlotOf(c, h.origin, h.capacity) < |h.index| && h.index[NextSlot(h)] == IndexAt(h, c)
  {
    hide SlotOf;
    NextFront(h.tail, c, h.origin, h.capacity);
  }

  /// The slot for the next block is free, or holds the oldest listed number of a full index.
  lemma NextEntry<T>(r: Ring<T>, vals: map<Entry, Block>, cleared: set<nat>)
    requires r.headers != [] && HeaderOk(r.Current(), r.entryAt) && SlotsOk(r.headers, vals, r.allotted)
    requires KeysOk(r.keys, r.entryAt, r.Current().low, r.allotted)
    requires ValsOk(vals, r.entryAt, r.Current().low, r.starts, r.pc, cleared)
    requires r.Current().low <= |r.starts| <= r.Current().top == |r.entryAt|
    ensures var h := r.Current(); var c := |r.starts|;
            if c < h.top || c < h.low + h.capacity then ValOf(vals, IndexAt(h, c)).None?
            else c == h.top == h.low + h.capacity && KeyOf(r.keys, IndexAt(h, c)) != INVALID_BLOCK_BASE
  {
    hide SlotOf, Reverted;
    var h, c := r.Current(), |r.starts|;
    if c < h.top {
      assert IndexAt(h, c) == r.entryAt[c];
    } else if c == h.low + h.capacity {
      SameSlot(h, h.low);
      assert IndexAt(h, h.low) == r.entryAt[h.low];
      WrapEven(h.low);
    }
  }

  lemma FindStepOk<T>(r: Ring<T>, tail: nat, op: Op<T>, vals: map<Entry, Block>, cleared: set<nat>)
    requires RingInv(r, tail) && r.pc == FindEntry(op) && SlotsOk(r.headers, vals, r.allotted)
    requires ValsOk(vals, r.entryAt, r.Low(), r.starts, r.pc, cleared)
    requires r.Low() <= |r.starts|
    ensures RingPcOk(r.At(FindStep(r, tail, op, vals)), tail)
    ensures EntryFree(FindStep(r, tail, op, vals), vals)
  {
    hide SlotOf, OpOk, IndexAt, ValsOk, SlotsOk, HeaderOk, KeysOk, Fail;
    var p', c := FindStep(r, tail, op, vals), |r.starts|;
    OpSame(r, r.At(p'), tail, op);
    Fails(r, tail, op);
    if r.headers != [] {
      CurrentHeader(r.headers, r.entryAt);
      HeaderBounds(r.Current(), r.entryAt);
      NextSlotIs(r.Current(), r.entryAt, c);
      NextEntry(r, vals, cleared);
    } else {
      assert p' == Fail(tail, op);
    }
  }

  lemma SameSlot(h: Header, low: nat)
    requires h.capacity > 0
    ensures IndexAt(h, low + h.capacity) == IndexAt(h, low)
  {
    ModuloMultiple(low - h.origin, 1, h.capacity);
  }

  lemma WrapEven(q: nat)
    ensures Wrap(q * BLOCK_SIZE) != INVALID_BLOCK_BASE
  {
    WrapModulo(q * BLOCK_SIZE, BLOCK_SIZE);
    ModuloMultiple(0, q, BLOCK_SIZE);
  }

  lemma OpSame<T>(r: Ring<T>, r': Ring<T>, tail: nat, op: Op<T>)
    requires OpOk(r, tail, op) && r'.starts == r.starts && r'.next == r.next && r'.tailBlock == r.tailBlock
    ensures OpOk(r', tail, op)
  {}

  // ---- doubling the index

  lemma GrownSlot(h: Header, q: int)
    requires h.capacity > 0 && PowerOfTwo(h.capacity) && h.capacity <= HALF
    requires h.tail == SlotOf(h.low + h.capacity - 1, h.origin, h.capacity)
    ensures Wrap(h.tail + 1 + (q - h.low)) % h.capacity == SlotOf(q, h.origin, h.capacity)
  {
    var cap, i := h.capacity, q - h.low;
    PowersDivideWord(cap);
    WrapModulo(h.tail + 1 + i, cap);
    var last := h.low + cap - 1 - h.origin;
    ModuloTwice(last, cap);
    ModuloSum(last, 1 + i, h.tail, 1 + i, cap);
    ModuloMultiple(q - h.origin, 1, cap);
    assert last + 1 + i == q - h.origin + 1 * cap;
  }

  /// Every number of the full index keeps its entry.
  lemma GrownIndexAt<T>(r: Ring<T>, q: int)
    requires r.headers != [] && HeaderOk(r.Current(), r.entryAt)
    requires var h := r.Current(); h.at == h.top == h.low + h.capacity && h.low <= q < h.low + 2 * h.capacity
    ensures var h, h' := r.Current(), GrowIndex(r).Current();
            IndexAt(h', q) == if q < h.top then IndexAt(h, q) else r.allotted + (q - h.top)
  {
    var h, h' := r.Current(), GrowIndex(r).Current();
    ModuloUnique(q - h.low, 0, q - h.low, 2 * h.capacity);
    if q < h.top { GrownSlot(h, q); }
  }

  lemma GrownTail(h: Header)
    requires h.capacity > 0
    ensures h.capacity - 1 == SlotOf(h.low + h.capacity - 1, h.low, 2 * h.capacity)
  {
    ModuloUnique(h.capacity - 1, 0, h.capacity - 1, 2 * h.capacity);
  }

  lemma GrownHeaderOk<T>(r: Ring<T>)
    requires r.headers != [] && HeaderOk(r.Current(), r.entryAt)
    requires var h := r.Current(); h.at == h.top == h.low + h.capacity && 2 * h.capacity * BLOCK_SIZE <= HALF
    ensures HeaderOk(GrowIndex(r).Current(), r.entryAt)
  {
    hide SlotOf, IndexAt;
    var h, h' := r.Current(), GrowIndex(r).Current();
    assert PowerOfTwo(2 * h.capacity);
    GrownTail(h);
    forall q | h'.low <= q < h'.top ensures IndexAt(h', q) == r.entryAt[q] { GrownIndexAt(r, q); }
  }

  /// The entries of the new index are distinct.
  lemma GrownDistinct(old_: seq<Entry>, tail: nat, first: nat)
    requires |old_| > 0 && PowerOfTwo(|old_|) && |old_| <= HALF && tail < |old_|
    requires forall a, b | 0 <= a < b < |old_| :: old_[a] != old_[b]
    requires forall e <- old_ :: e < first
    ensures |GrownIndex(old_, tail, first)| == 2 * |old_|
    ensures forall a, b | 0 <= a < b < 2 * |old_| ::
              GrownIndex(old_, tail, first)[a] != GrownIndex(old_, tail, first)[b]
    ensures forall e <- GrownIndex(old_, tail, first) :: e < first + |old_|
  {
    var n, g := |old_|, GrownIndex(old_, tail, first);
    PowersDivideWord(n);
    forall a | 0 <= a < n ensures g[a] == old_[(tail + 1 + a) % n] < first {
      RotatedSlot(tail, a, n);
      assert old_[(tail + 1 + a) % n] in old_;
    }
    forall a, b | 0 <= a < b < 2 * n ensures g[a] != g[b] {
      if b < n {
        ModuloDistinct(tail + 1 + a, tail + 1 + b, n);
        var x, y := (tail + 1 + a) % n, (tail + 1 + b) % n;
        assert if x < y then old_[x] != old_[y] else old_[y] != old_[x];
      }
    }
    forall e | e in g ensures e < first + n {
      var a :| 0 <= a < |g| && g[a] == e;
    }
  }

  lemma RotatedSlot(tail: nat, a: nat, n: nat)
    requires n > 0 && WORD % n == 0
    ensures Wrap(tail + 1 + a) % n == (tail + 1 + a) % n < n
  {
    WrapModulo(tail + 1 + a, n);
  }

  lemma GrownSlotsOk<T>(r: Ring<T>, vals: map<Entry, Block>)
    requires r.headers != [] && HeaderOk(r.Current(), r.entryAt) && SlotsOk(r.headers, vals, r.allotted)
    requires var h := r.Current(); h.at == h.top == h.low + h.capacity
    requires 2 * r.Current().capacity * BLOCK_SIZE <= HALF
    ensures SlotsOk(GrowIndex(r).headers, vals, GrowIndex(r).allotted)
  {
    hide IndexAt, SlotOf, GrownIndex;
    var h, r' := r.Current(), GrowIndex(r);
    var h' := r'.Current();
    SlotBound(h);
    GrownDistinct(h.index, h.tail, r.allotted);
    forall q | h'.top <= q < h'.low + h'.capacity ensures ValOf(vals, IndexAt(h', q)).None? { GrownIndexAt(r, q); }
  }

  lemma SlotBound(h: Header)
    requires h.capacity > 0 && h.tail == SlotOf(h.at - 1, h.origin, h.capacity)
    ensures h.tail < h.capacity
  {}

  lemma HeadersGrown<T>(r: Ring<T>)
    requires r.headers != [] && HeadersOk(r.headers, r.entryAt) && HeaderOk(GrowIndex(r).Current(), r.entryAt)
    ensures HeadersOk(GrowIndex(r).headers, r.entryAt)
  {
    hide HeaderOk, GrownIndex;
    var r' := GrowIndex(r);
    forall h | h in r'.headers ensures HeaderOk(h, r.entryAt) && h.low <= r'.headers[|r'.headers| - 1].low {
      assert h == r'.Current() || h in r.headers;
    }
  }

  /// The index after doubling: the entry for the next block is new, as the program asserts.
  lemma GrowsIndex<T>(r: Ring<T>, tail: nat, op: Op<T>, vals: map<Entry, Block>)
    requires RingInv(r, tail) && r.pc == Grow(op) && SlotsOk(r.headers, vals, r.allotted)
    requires 2 * r.Current().capacity * BLOCK_SIZE <= HALF
    ensures var r1 := GrowIndex(r); var slot := NextSlot(r1.Current());
            && slot < |r1.Current().index|
            && KeyOf(r.keys, r1.Current().index[slot]) == INVALID_BLOCK_BASE
            && EntryFree(StoreKey(op, r1.Current().index[slot], slot), vals)
            && RingInv(r1.At(StoreKey(op, r1.Current().index[slot], slot)), tail)
            && SlotsOk(r1.headers, vals, r1.allotted)
  {
    hide SlotOf, HeaderOk, GrownIndex, LinksOk, IndexAt;
    var h, r1, c := r.Current(), GrowIndex(r), |r.starts|;
    assert HeaderOk(h, r.entryAt);
    assert h.capacity > 0 by { HeaderCapacity(h, r.entryAt); }
    GrownHeaderOk(r);
    GrownSlotsOk(r, vals);
    HeadersGrown(r);
    NextSlotIs(r1.Current(), r.entryAt, c);
    GrownIndexAt(r, c);
    var r2 := r1.At(StoreKey(op, r1.Current().index[NextSlot(r1.Current())], NextSlot(r1.Current())));
    assert KeyOf(r.keys, r.allotted) == INVALID_BLOCK_BASE;
    assert OpOk(r2, tail, op) by { OpSame(r, r2, tail, op); }
  }

  lemma HeaderCapacity(h: Header, entryAt: seq<Entry>)
    requires HeaderOk(h, entryAt)
    ensures h.capacity > 0 && |h.index| == h.capacity
  {}

  // ---- entering a key

  /// Replacing the current index by a good one.
  lemma CurrentReplaced(headers: seq<Header>, h: Header, entryAt: seq<Entry>)
    requires headers != [] && HeadersOk(headers, entryAt) && HeaderOk(h, entryAt) && headers[|headers| - 1].low <= h.low
    ensures HeadersOk(headers[|headers| - 1 := h], entryAt)
  {
    hide HeaderOk;
    var headers' := headers[|headers| - 1 := h];
    forall x | x in headers' ensures HeaderOk(x, entryAt) && x.low <= h.low {
      var i :| 0 <= i < |headers'| && headers'[i] == x;
      if i < |headers| - 1 { assert headers[i] in headers; }
    }
  }

  lemma HeadersExtended(headers: seq<Header>, entryAt: seq<Entry>, e: Entry)
    requires HeadersOk(headers, entryAt)
    ensures HeadersOk(headers, entryAt + [e])
  {
    hide IndexAt, SlotOf;
    forall h | h in headers ensures HeaderOk(h, entryAt + [e]) { assert HeaderOk(h, entryAt); }
  }

  /// The index with one more number listed.
  function ListNumber(h: Header, c: nat): Header {
    h.(low := if h.low + h.capacity <= c then c + 1 - h.capacity else h.low, top := c + 1)
  }

  lemma NumberListed(h: Header, entryAt: seq<Entry>)
    requires HeaderOk(h, entryAt) && h.top == |entryAt|
    ensures HeaderOk(ListNumber(h, |entryAt|), entryAt + [IndexAt(h, |entryAt|)])
  {
    hide SlotOf;
    var c := |entryAt|;
    var h' := ListNumber(h, c);
    assert forall q :: IndexAt(h', q) == IndexAt(h, q);
  }

  lemma SlotsApart(h: Header, p: int, q: int)
    requires h.capacity > 0 && |h.index| == h.capacity && p < q < p + h.capacity
    requires forall a, b | 0 <= a < b < |h.index| :: h.index[a] != h.index[b]
    ensures IndexAt(h, p) != IndexAt(h, q)
  {
    SlotsDiffer(p, q, h.origin, h.capacity);
  }

  lemma KeyEntered(keys: map<Entry, nat>, h: Header, entryAt: seq<Entry>, allotted: nat)
    requires HeaderOk(h, entryAt) && h.top == |entryAt| && KeysOk(keys, entryAt, h.low, allotted)
    requires forall a, b | 0 <= a < b < |h.index| :: h.index[a] != h.index[b]
    requires forall e <- h.index :: e < allotted
    ensures var c := |entryAt|; var e := IndexAt(h, c);
            KeysOk(keys[e := Wrap(c * BLOCK_SIZE)], entryAt + [e], ListNumber(h, c).low, allotted)
  {
    hide SlotOf, IndexAt;
    var c := |entryAt|;
    var e, low' := IndexAt(h, c), ListNumber(h, c).low;
    forall q | low' <= q < c ensures entryAt[q] != e {
      SlotsApart(h, q, c);
      assert IndexAt(h, q) == entryAt[q];
    }
    assert e < allotted by { InIndex(h, c); }
  }

  lemma InIndex(h: Header, q: int)
    requires h.capacity > 0 && |h.index| == h.capacity
    ensures IndexAt(h, q) in h.index
  {}

  /// A full index makes room only by giving up a number whose block is gone.
  lemma OldestIsCleared<T>(vals: map<Entry, Block>, h: Header, entryAt: seq<Entry>, starts: seq<Block>,
                           p: ProducerPC<T>, cleared: set<nat>)
    requires HeaderOk(h, entryAt) && h.top == |entryAt| == |starts| && ValsOk(vals, entryAt, h.low, starts, p, cleared)
    requires h.low + h.capacity <= |entryAt| && p.StoreKey? && ValOf(vals, IndexAt(h, |entryAt|)).None?
    ensures h.low in cleared && ListNumber(h, |entryAt|).low == h.low + 1
  {
    hide SlotOf;
    SameSlot(h, h.low);
    assert IndexAt(h, h.low) == entryAt[h.low];
  }

  lemma ValsEntered<T>(vals: map<Entry, Block>, entryAt: seq<Entry>, low: nat, low': nat, starts: seq<Block>,
                       p: ProducerPC<T>, p': ProducerPC<T>, cleared: set<nat>, e: Entry)
    requires ValsOk(vals, entryAt, low, starts, p, cleared) && low <= low' && |starts| == |entryAt|
              && ValOf(vals, e).None?
    requires p.StoreKey? && p'.StoreIndexTail?
    ensures ValsOk(vals, entryAt + [e], low', starts, p', cleared)
  {
    forall q: nat | low' <= q < |entryAt| + 1
      ensures ValOf(vals, (entryAt + [e])[q]) ==
                if q < |starts| && q !in cleared && !Reverted(p', q) then Some(starts[q]) else None
    {
      if q < |entryAt| { assert (entryAt + [e])[q] == entryAt[q]; }
    }
  }

  lemma SlotsEntered(headers: seq<Header>, vals: map<Entry, Block>, allotted: nat, c: nat)
    requires headers != [] && SlotsOk(headers, vals, allotted)
    requires var h := headers[|headers| - 1]; h.top == c && h.top <= h.low + h.capacity && h.capacity > 0
    ensures SlotsOk(headers[|headers| - 1 := ListNumber(headers[|headers| - 1], c)], vals, allotted)
  {
    hide SlotOf;
    var h := headers[|headers| - 1];
    assert forall q :: IndexAt(ListNumber(h, c), q) == IndexAt(h, q);
  }

  lemma StoreKeyNew<T>(s: State<T>, q: Request<T>)
    requires Inv(s) && s.ring.pc.StoreKey? && |s.ring.starts| == |s.ring.entryAt|
    ensures Inv(ProducerStep(s, q))
  {
    hide SlotOf, IndexAt, HeadersOk, KeysOk, HeaderOk, SlotsOk, ValsOk, BlocksOk, CountsOk, ElemsOk, GotOk, RecycleOk,
        JobsOk, Claims.Inv, OpOk, ListNumber, LowOk;
    var r, c, op := s.ring, |s.ring.starts|, s.ring.pc.op;
    var h, e := r.Current(), s.ring.pc.entry;
    var r' := ProducerStep(s, q).ring;
    assert HeaderOk(h, r.entryAt) by { CurrentHeader(r.headers, r.entryAt); }
    SlotsParts(r.headers, s.vals, r.allotted);
    assert h.top <= h.low + h.capacity && h.capacity > 0 by { HeaderBounds(h, r.entryAt); }
    assert op.base == Wrap(c * BLOCK_SIZE) by { OpBase(r, s.claims.tail, op); }
    KeyEntered(r.keys, h, r.entryAt, r.allotted);
    NumberListed(h, r.entryAt);
    HeadersExtended(r.headers, r.entryAt, e);
    ListNumberLow(h, c);
    CurrentReplaced(r.headers, ListNumber(h, c), r.entryAt + [e]);
    assert LowOk(ListNumber(h, c).low, s.cleared) by {
      if h.low + h.capacity <= c {
        OldestIsCleared(s.vals, h, r.entryAt, r.starts, r.pc, s.cleared);
        LowRaised(h.low, s.cleared);
      }
    }
    assert r'.headers == r.headers[|r.headers| - 1 := ListNumber(h, c)] by { ListNumberIs(r, e); }
    ValsEntered(s.vals, r.entryAt, h.low, ListNumber(h, c).low, r.starts, r.pc, r'.pc, s.cleared, e);
    SlotsEntered(r.headers, s.vals, r.allotted, c);
    OpSame(r, r', s.claims.tail, op);
    CountsSame(s.counts, r.starts, s.freed, s.done, r.pc, r'.pc);
    assert Extends(h, ListNumber(h, c)) by { ListNumberExtends(h, c); }
    ListExtends(r, ListNumber(h, c));
    JobsExtended(s, s.claims, r');
  }

  lemma OpBase<T>(r: Ring<T>, tail: nat, op: Op<T>)
    requires OpOk(r, tail, op) && op.need > 0
    ensures op.base == Wrap(|r.starts| * BLOCK_SIZE)
  {}

  lemma CurrentHeader(headers: seq<Header>, entryAt: seq<Entry>)
    requires headers != [] && HeadersOk(headers, entryAt)
    ensures HeaderOk(headers[|headers| - 1], entryAt)
  {}

  lemma SlotsParts(headers: seq<Header>, vals: map<Entry, Block>, allotted: nat)
    requires headers != [] && SlotsOk(headers, vals, allotted)
    ensures var h := headers[|headers| - 1];
            (forall a, b | 0 <= a < b < |h.index| :: h.index[a] != h.index[b]) && (forall e <- h.index :: e < allotted)
  {}

  lemma HeaderBounds(h: Header, entryAt: seq<Entry>)
    requires HeaderOk(h, entryAt)
    ensures h.low <= h.top <= h.low + h.capacity && h.capacity > 0 && |h.index| == h.capacity
  {}

  lemma ListNumberLow(h: Header, c: nat)
    requires h.top <= h.low + h.capacity && h.top == c && h.capacity > 0
    ensures h.low <= ListNumber(h, c).low <= h.low + 1 && (h.low + h.capacity > c ==> ListNumber(h, c).low == h.low)
  {}

  lemma ListNumberExtends(h: Header, c: nat)
    requires h.top == c
    ensures Extends(h, ListNumber(h, c))
  {}

  lemma ListNumberIs<T>(r: Ring<T>, e: Entry)
    requires r.headers != [] && r.Current().top == |r.starts|
    ensures EnterKey(r, e) == r.SetCurrent(ListNumber(r.Current(), |r.starts|)).(entryAt := r.entryAt + [e])
  {}

  lemma LowRaised(low: nat, cleared: set<nat>)
    requires LowOk(low, cleared) && low in cleared
    ensures LowOk(low + 1, cleared)
  {}

  lemma CountsSame<T>(counts: map<Block, nat>, starts: seq<Block>, freed: set<nat>, done: set<nat>, p: ProducerPC<T>,
                      p': ProducerPC<T>)
    requires CountsOk(counts, starts, freed, done, p) && !p'.StoreValue?
    ensures CountsOk(counts, starts, freed, done, p')
  {}

  // ---- the consumers while the producer moves

  /// What may happen to an index between two steps of a consumer.
  predicate Extends(h: Header, h': Header) {
    && h'.origin == h.origin && h'.capacity == h.capacity && h'.index == h.index
    && h.shown <= h'.shown && h.top <= h'.top
  }

  ghost predicate RingExtends<T>(r: Ring<T>, r': Ring<T>, c0: nat) {
    && |r.headers| <= |r'.headers|
    && (forall h | 0 <= h < |r.headers| :: Extends(r.headers[h], r'.headers[h]))
    && (forall j | 0 <= j < c0 :: BlockAt(r'.starts, j) == BlockAt(r.starts, j))
  }

  lemma ListExtends<T>(r: Ring<T>, h: Header)
    requires r.headers != [] && Extends(r.Current(), h)
    ensures forall i | 0 <= i < |r.headers| :: Extends(r.headers[i], r.SetCurrent(h).headers[i])
  {}

  lemma JobExtended(p: ConsumerPC, headers: seq<Header>, headers': seq<Header>, starts: seq<Block>,
                    starts': seq<Block>, c0: nat)
    requires JobOk(p, headers, starts)
    requires |headers| <= |headers'| && forall h | 0 <= h < |headers| :: Extends(headers[h], headers'[h])
    requires !p.Idle? ==> LastNumber(p) < c0
    requires forall j | 0 <= j < c0 :: BlockAt(starts', j) == BlockAt(starts, j)
    ensures JobOk(p, headers', starts')
  {
    hide SlotOf, StopIndex;
  }

  lemma JobsExtended<T>(s: State<T>, claims: Claims.State, r': Ring<T>)
    requires Inv(s) && RingExtends(s.ring, r', CeilBlocks(s.claims.tail))
    requires claims.head == s.claims.head && claims.pc == s.claims.pc
    ensures JobsOk(s.cpc, claims, r'.headers, r'.starts, s.got, s.done)
  {
    hide RingInv, SlotsOk, ValsOk, BlocksOk, CountsOk, ValuesOk, ElemsOk, GotOk, RecycleOk, LowOk, EntryFree,
        Claims.Inv, JobOk, ProgressOk, CeilBlocks;
    forall t: Thread ensures JobOk(CpcOf(s.cpc, t), r'.headers, r'.starts) {
      JobAt(s, t);
      if !s.Cpc(t).Idle? {
        JobInRange(s.Cpc(t), s.ring.headers, s.ring.starts);
        ClaimedIsLive(s, t, s.Cpc(t).first + s.Cpc(t).n - 1);
      }
      JobExtended(s.Cpc(t), s.ring.headers, r'.headers, s.ring.starts, r'.starts, CeilBlocks(s.claims.tail));
    }
  }

  // ---- steps that only touch the ring

  /// Nothing but the tail of the current index and the producer's place change.
  ghost predicate OnlyIndexTail<T>(r: Ring<T>, r': Ring<T>) {
    && r'.starts == r.starts && r'.entryAt == r.entryAt && r'.keys == r.keys && r'.allotted == r.allotted
    && (r.headers == [] ==> r'.headers == [])
    && (r.headers != [] ==>
          r'.headers != [] && r'.headers == r.headers[|r.headers| - 1 := r'.Current()]
          && r'.Current() == r.Current().(tail := r'.Current().tail, at := r'.Current().at))
  }

  predicate NothingPending<T>(p: ProducerPC<T>) {
    !p.StoreValue? && (p.ReturnBlocks? ==> p.rest == [])
  }

  lemma Quiet<T>(s: State<T>, r': Ring<T>)
    requires Inv(s) && OnlyIndexTail(s.ring, r') && RingInv(r', s.claims.tail)
    requires EntryFree(r'.pc, s.vals) && ValuesOk(r'.pc, s.claims.tail, s.values)
    requires NothingPending(s.ring.pc) && NothingPending(r'.pc)
    requires forall q :: Reverted(r'.pc, q) == Reverted(s.ring.pc, q)
    ensures Inv(s.(ring := r'))
  {
    hide SlotOf, IndexAt, RingInv, ValsOk, BlocksOk, CountsOk, ElemsOk, GotOk, RecycleOk, JobsOk, LowOk, Claims.Inv,
        Reverted, SlotsOk, ValuesOk, EntryFree;
    var r := s.ring;
    TailMoved(r, r', s.vals);
    ValsKept(s.vals, r.entryAt, r.Low(), r.starts, r.pc, r'.pc, s.cleared);
    CountsSame(s.counts, r.starts, s.freed, s.done, r.pc, r'.pc);
    JobsExtended(s, s.claims, r') by {
      if r.headers != [] { assert Extends(r.Current(), r'.Current()); ListExtends(r, r'.Current()); }
    }
  }

  lemma TailMoved<T>(r: Ring<T>, r': Ring<T>, vals: map<Entry, Block>)
    requires OnlyIndexTail(r, r') && SlotsOk(r.headers, vals, r.allotted)
    ensures SlotsOk(r'.headers, vals, r'.allotted) && r'.Low() == r.Low()
  {
    hide SlotOf;
    if r.headers != [] { assert forall q :: IndexAt(r'.Current(), q) == IndexAt(r.Current(), q); }
  }

  lemma ValsKept<T>(vals: map<Entry, Block>, entryAt: seq<Entry>, low: nat, starts: seq<Block>, p: ProducerPC<T>,
                    p': ProducerPC<T>, cleared: set<nat>)
    requires ValsOk(vals, entryAt, low, starts, p, cleared)
    requires forall q :: Reverted(p', q) == Reverted(p, q)
    ensures ValsOk(vals, entryAt, low, starts, p', cleared)
  {
    hide Reverted;
    forall q: nat | low <= q < |entryAt|
      ensures ValOf(vals, entryAt[q]) ==
                if q < |starts| && q !in cleared && !Reverted(p', q) then Some(starts[q]) else None
    {
      assert Reverted(p', q) == Reverted(p, q);
    }
  }

  /// Moving the tail of the current index to a listed number.
  lemma TailMovedOk<T>(r: Ring<T>, slot: nat, delta: int)
    requires r.headers != [] && HeadersOk(r.headers, r.entryAt)
    requires
      var h := r.Current(); h.shown <= h.at + delta <= h.top && slot == SlotOf(h.at + delta - 1, h.origin, h.capacity)
    ensures var r' := MoveIndexTail(r, slot, delta);
            HeadersOk(r'.headers, r'.entryAt) && OnlyIndexTail(r, r')
            && r'.Current().at == r.Current().at + delta
  {
    hide SlotOf;
    var h := r.Current();
    var h' := h.(tail := slot, at := h.at + delta);
    assert HeaderOk(h, r.entryAt);
    assert forall q :: IndexAt(h', q) == IndexAt(h, q);
    assert HeaderOk(h', r.entryAt);
    CurrentReplaced(r.headers, h', r.entryAt);
  }

  lemma RewindOk<T>(r: Ring<T>)
    requires r.headers != [] && HeadersOk(r.headers, r.entryAt) && r.Current().shown < r.Current().at
    ensures var r' := RewindIndexTail(r);
            HeadersOk(r'.headers, r'.entryAt) && OnlyIndexTail(r, r')
            && r'.Current().at == r.Current().at - 1
  {
    hide SlotOf;
    var h := r.Current();
    assert HeaderOk(h, r.entryAt);
    PreviousFront(h.tail, h.at - 1, h.origin, h.capacity);
    TailMovedOk(r, PreviousSlot(h), -1);
  }

  lemma OnlyPlace<T>(r: Ring<T>, r': Ring<T>)
    requires r' == r.(pc := r'.pc, tailBlock := r'.tailBlock)
    ensures OnlyIndexTail(r, r')
  {
    if r.headers != [] { assert r.headers == r.headers[|r.headers| - 1 := r.Current()]; }
  }

  /// Steps that change nothing but the producer's place and its tail block.
  predicate Place<T>(r: Ring<T>, q: Request<T>) {
    match r.pc
    case Resting => true
    case Choose(_) => true
    case CheckFull(_) => true
    case Grow(_) => r.headers == [] || !q.Granted? || 2 * r.Current().capacity * BLOCK_SIZE > HALF
    case ReturnBlocks(_, chain, _) => chain.None?
    case Construct(_, k, stop, _, _) => k == stop
    case _ => false
  }

  lemma ConstructMoves<T>(r: Ring<T>, tail: nat, head: nat, vals: map<Entry, Block>, owned: set<Block>, q: Request<T>)
    requires RingPcOk(r, tail) && r.pc.Construct? && r.pc.k == r.pc.stop && DistinctFrom(r.starts, LinkedFrom(tail))
    ensures RingPcOk(RingStep(r, tail, head, vals, owned, q), tail)
    ensures RingStep(r, tail, head, vals, owned, q).pc.StoreTail? ==> r.pc.k == tail + |r.pc.op.values|
  {
    hide LinksOk, Listed, SlotOf, IndexAt, Allocating, Begin, BeginConstruct, Fail, FindStep, AddBlock, GrowIndex,
        EnterKey, Keyed, Reverting, ChainOk, LinkedFrom, StopIndex;
    var op, r' := r.pc.op, RingStep(r, tail, head, vals, owned, q);
    LinksSame(r, r', tail, op);
    ListedSame(r, r', tail, |r.starts|);
    if |r.starts| > 0 {
      StopIndexIsMin(r.pc.k, tail + |op.values|);
      if r.pc.j < |r.starts| - 1 {
        LinkAt(r, tail, op, r.pc.j);
      }
    }
  }

  lemma LinkAt<T>(r: Ring<T>, tail: nat, op: Op<T>, j: nat)
    requires LinksOk(r, tail, op) && LinkedFrom(tail) <= j < |r.starts| - 1
    ensures NextOf(r.next, r.starts[j]) == Some(r.starts[j + 1])
  {}

  lemma PlaceRing<T>(r: Ring<T>, tail: nat, head: nat, vals: map<Entry, Block>, owned: set<Block>, q: Request<T>)
    requires RingPcOk(r, tail) && Place(r, q) && DistinctFrom(r.starts, LinkedFrom(tail))
    ensures RingPcOk(RingStep(r, tail, head, vals, owned, q), tail)
  {
    hide LinksOk, Listed, StopIndex, Begin, BeginConstruct, Fail, SlotOf, IndexAt;
    var r' := RingStep(r, tail, head, vals, owned, q);
    match r.pc {
      case Resting => if q.Enqueue? && (q.bulk || |q.values| == 1) && |q.values| < HALF {
        BeginsOp(r, tail, q.values, q.bulk);
      }
      case Choose(op) => if op.need == 0 { BeginsConstruct(r, tail, op); }
          else { OpSame(r, r', tail, op); ListedSame(r, r', tail, |r.starts|); }
      case CheckFull(op) => Fails(r, tail, op); OpSame(r, r', tail, op); ListedSame(r, r', tail, |r.starts|);
      case Grow(op) => Fails(r, tail, op);
      case ReturnBlocks(op, _, _) => ListedSame(r, r', tail, |r.starts|);
      case Construct(op, _, _, _, _) => ConstructMoves(r, tail, head, vals, owned, q);
    }
  }

  lemma PlaceEffect<T>(r: Ring<T>, tail: nat, head: nat, vals: map<Entry, Block>, owned: set<Block>, q: Request<T>,
                       values: seq<T>)
    requires RingPcOk(r, tail) && Place(r, q) && ValuesOk(r.pc, tail, values)
              && DistinctFrom(r.starts, LinkedFrom(tail))
    ensures var r' := RingStep(r, tail, head, vals, owned, q);
            && r' == r.(pc := r'.pc, tailBlock := r'.tailBlock)
            && NothingPending(r.pc) && NothingPending(r'.pc) && !r'.pc.StoreKey?
            && (forall q :: Reverted(r'.pc, q) == Reverted(r.pc, q))
            && ValuesOk(r'.pc, tail, values)
  {
    hide LinksOk, Listed, StopIndex, SlotOf, IndexAt, BlocksNeeded, FirstBase, PreviousBase, CircularLessThan, Wrap,
        OpOk, LastBlock, LinkedFrom;
    if r.pc.Construct? { ConstructMoves(r, tail, head, vals, owned, q); }
    assert values[tail..] == [] || |values| > tail;
  }

  lemma PlaceStep<T>(s: State<T>, q: Request<T>)
    requires Inv(s) && Place(s.ring, q)
    ensures Inv(ProducerStep(s, q))
  {
    hide SlotOf, IndexAt, HeadersOk, KeysOk, RingPcOk, ValsOk, BlocksOk, CountsOk, ElemsOk, GotOk, RecycleOk, JobsOk,
        LowOk, Claims.Inv, Reverted, SlotsOk, ValuesOk, RingStep, OnlyIndexTail;
    var r := s.ring;
    var r' := RingStep(r, s.claims.tail, s.claims.head, s.vals, s.owned, q);
    UnfinishedDistinct(s);
    PlaceRing(r, s.claims.tail, s.claims.head, s.vals, s.owned, q);
    PlaceEffect(r, s.claims.tail, s.claims.head, s.vals, s.owned, q, s.values);
    OnlyPlace(r, r');
    Quiet(s, r');
  }

  lemma FindEntryStep<T>(s: State<T>, q: Request<T>)
    requires Inv(s) && s.ring.pc.FindEntry?
    ensures Inv(ProducerStep(s, q))
  {
    hide SlotOf, IndexAt, HeadersOk, KeysOk, RingPcOk, ValsOk, BlocksOk, CountsOk, ElemsOk, GotOk, RecycleOk, JobsOk,
        LowOk, Claims.Inv, SlotsOk, OnlyIndexTail, FindStep;
    var r := s.ring;
    var r' := RingStep(r, s.claims.tail, s.claims.head, s.vals, s.owned, q);
    LowIsPublished(s);
    RingFacts(r, s.claims.tail);
    FindStepOk(r, s.claims.tail, r.pc.op, s.vals, s.cleared);
    FindStepGoes(r, s.claims.tail, r.pc.op, s.vals);
    OnlyPlace(r, r');
    Quiet(s, r');
  }

  lemma FindStepGoes<T>(r: Ring<T>, tail: nat, op: Op<T>, vals: map<Entry, Block>)
    ensures var p := FindStep(r, tail, op, vals); p.StoreKey? || p.Grow? || p.Resting? || (p.Revert? && p.i == p.op.c0)
  {}

  predicate Listing<T>(p: ProducerPC<T>, q: Request<T>) {
    p.StoreIndexTail? || (p.Requisition? && !q.Granted?) || p.Rewind? || p.RevertRewind?
  }

  ghost predicate ListingOk<T>(r: Ring<T>, r': Ring<T>, tail: nat) {
    && RingInv(r', tail) && OnlyIndexTail(r, r')
    && NothingPending(r'.pc) && !r'.pc.StoreKey? && !r'.pc.Construct? && !r'.pc.StoreTail?
    && (forall q :: Reverted(r'.pc, q) == Reverted(r.pc, q))
  }

  lemma StoreIndexTailRing<T>(r: Ring<T>, tail: nat, head: nat, vals: map<Entry, Block>, owned: set<Block>,
                              q: Request<T>)
    requires RingInv(r, tail) && r.pc.StoreIndexTail?
    ensures ListingOk(r, RingStep(r, tail, head, vals, owned, q), tail)
  {
    hide SlotOf, LinksOk, HeadersOk, KeysOk, Wrap;
    var r' := RingStep(r, tail, head, vals, owned, q);
    KeyedHeader(r, tail, r.pc.op, r.pc.entry);
    TailMovedOk(r, r.pc.slot, 1);
    OpSame(r, r', tail, r.pc.op);
  }

  lemma DeniedRing<T>(r: Ring<T>, tail: nat, head: nat, vals: map<Entry, Block>, owned: set<Block>, q: Request<T>)
    requires RingInv(r, tail) && r.pc.Requisition? && !q.Granted?
    ensures ListingOk(r, RingStep(r, tail, head, vals, owned, q), tail)
  {
    hide SlotOf, LinksOk, HeadersOk, KeysOk, Wrap;
    var r' := RingStep(r, tail, head, vals, owned, q);
    OnlyPlace(r, r');
    OpSame(r, r', tail, r.pc.op);
  }

  lemma RewindRing<T>(r: Ring<T>, tail: nat, head: nat, vals: map<Entry, Block>, owned: set<Block>, q: Request<T>)
    requires RingInv(r, tail) && r.pc.Rewind?
    ensures ListingOk(r, RingStep(r, tail, head, vals, owned, q), tail)
  {
    hide SlotOf, LinksOk, HeadersOk, KeysOk, Wrap, RewindIndexTail;
    var r' := RingStep(r, tail, head, vals, owned, q);
    RewindOk(r);
    RewindKeeps(r);
    OpSame(r, r', tail, r.pc.op);
  }

  lemma RewindKeeps<T>(r: Ring<T>)
    ensures var r' := RewindIndexTail(r); r'.next == r.next && r'.tailBlock == r.tailBlock && r'.pc == r.pc
  {
    hide PreviousSlot;
  }

  lemma RevertRewindRing<T>(r: Ring<T>, tail: nat, head: nat, vals: map<Entry, Block>, owned: set<Block>, q: Request<T>)
    requires RingInv(r, tail) && r.pc.RevertRewind?
    ensures ListingOk(r, RingStep(r, tail, head, vals, owned, q), tail)
  {
    hide SlotOf, LinksOk, HeadersOk, KeysOk, Wrap, RewindIndexTail;
    var r' := RingStep(r, tail, head, vals, owned, q);
    RewindOk(r);
    RewindKeeps(r);
    RevertedLink(r, tail, r.pc.op, r.pc.i);
    NextBaseIsExact(r.pc.i);
    OpSame(r, r', tail, r.pc.op);
  }

  lemma KeyedHeader<T>(r: Ring<T>, tail: nat, op: Op<T>, e: Entry)
    requires Keyed(r, tail, op, e) && Listed(r, tail, |r.starts|) && HeadersOk(r.headers, r.entryAt)
    ensures var h := r.Current(); h.shown <= h.at + 1 <= h.top && h.capacity > 0 && h.at == |r.starts|
  {
    hide SlotOf, IndexAt;
    assert HeaderOk(r.Current(), r.entryAt);
  }

  lemma RevertedLink<T>(r: Ring<T>, tail: nat, op: Op<T>, i: nat)
    requires OpOk(r, tail, op) && op.bulk && op.c0 <= i < |r.starts|
    ensures NextOf(r.next, r.starts[i]) == if i + 1 < |r.starts| then Some(r.starts[i + 1]) else None
  {}

  lemma ListingStep<T>(s: State<T>, q: Request<T>)
    requires Inv(s) && Listing(s.ring.pc, q)
    ensures Inv(ProducerStep(s, q))
  {
    hide SlotOf, IndexAt, RingInv, ValsOk, BlocksOk, CountsOk, ElemsOk, GotOk, RecycleOk, JobsOk, LowOk, Claims.Inv,
        SlotsOk, OnlyIndexTail, RingStep;
    var r, tail, head := s.ring, s.claims.tail, s.claims.head;
    match r.pc {
      case StoreIndexTail(_, _, _) => StoreIndexTailRing(r, tail, head, s.vals, s.owned, q);
      case Requisition(_, _) => DeniedRing(r, tail, head, s.vals, s.owned, q);
      case Rewind(_, _) => RewindRing(r, tail, head, s.vals, s.owned, q);
      case RevertRewind(_, _, _, _) => RevertRewindRing(r, tail, head, s.vals, s.owned, q);
    }
    Quiet(s, RingStep(r, tail, head, s.vals, s.owned, q));
  }

  lemma GrowStep<T>(s: State<T>, q: Request<T>)
    requires Inv(s) && s.ring.pc.Grow? && !Place(s.ring, q)
    ensures Inv(ProducerStep(s, q))
  {
    hide SlotOf, IndexAt, RingInv, HeaderOk, SlotsOk, ValsOk, BlocksOk, CountsOk, ElemsOk, GotOk, RecycleOk, JobsOk,
        LowOk, Claims.Inv, NextSlot, GrownIndex;
    var r, op := s.ring, s.ring.pc.op;
    GrowsIndex(r, s.claims.tail, op, s.vals);
    var r1 := GrowIndex(r);
    var r' := r1.At(StoreKey(op, r1.Current().index[NextSlot(r1.Current())], NextSlot(r1.Current())));
    ValsKept(s.vals, r.entryAt, r.Low(), r.starts, r.pc, r'.pc, s.cleared);
    CountsSame(s.counts, r.starts, s.freed, s.done, r.pc, r'.pc);
    JobsExtended(s, s.claims, r');
  }

  // ---- a number that had an entry before

  lemma KeyKept(keys: map<Entry, nat>, entryAt: seq<Entry>, low: nat, allotted: nat, c: nat)
    requires KeysOk(keys, entryAt, low, allotted) && low <= c < |entryAt|
    ensures KeysOk(keys[entryAt[c] := Wrap(c * BLOCK_SIZE)], entryAt, low, allotted)
  {
    WrapEven(c);
  }

  lemma KeepKey<T>(r: Ring<T>, tail: nat, op: Op<T>, e: Entry, slot: nat)
    requires RingInv(r, tail) && r.pc == StoreKey(op, e, slot) && r.Low() <= |r.starts| < |r.entryAt|
    ensures EnterKey(r, e) == r && e == r.entryAt[|r.starts|]
    ensures KeysOk(r.keys[e := op.base], r.entryAt, r.Low(), r.allotted)
    ensures RingPcOk(r.(keys := r.keys[e := op.base]).At(StoreIndexTail(op, e, slot)), tail)
  {
    hide SlotOf, LinksOk, HeadersOk, KeysOk, Wrap;
    var h, c := r.Current(), |r.starts|;
    CurrentHeader(r.headers, r.entryAt);
    assert IndexAt(h, c) == r.entryAt[c];
    KeyKept(r.keys, r.entryAt, r.Low(), r.allotted, c);
    assert r.headers == r.headers[|r.headers| - 1 := h];
    OpSame(r, r.(keys := r.keys[e := op.base]).At(StoreIndexTail(op, e, slot)), tail, op);
  }

  lemma StoreKeyOld<T>(s: State<T>, q: Request<T>)
    requires Inv(s) && s.ring.pc.StoreKey? && |s.ring.starts| < |s.ring.entryAt|
    ensures Inv(ProducerStep(s, q))
  {
    hide SlotOf, IndexAt, HeadersOk, KeysOk, RingPcOk, SlotsOk, ValsOk, BlocksOk, CountsOk, ElemsOk, GotOk, RecycleOk,
        JobsOk, LowOk, Claims.Inv, EnterKey;
    var r, op, e := s.ring, s.ring.pc.op, s.ring.pc.entry;
    LowIsPublished(s);
    RingFacts(r, s.claims.tail);
    KeepKey(r, s.claims.tail, op, e, r.pc.slot);
    var r' := r.(keys := r.keys[e := op.base]).At(StoreIndexTail(op, e, r.pc.slot));
    ValsKept(s.vals, r.entryAt, r.Low(), r.starts, r.pc, r'.pc, s.cleared);
    CountsSame(s.counts, r.starts, s.freed, s.done, r.pc, r'.pc);
    JobsExtended(s, s.claims, r');
  }

  lemma StoreKeyStep<T>(s: State<T>, q: Request<T>)
    requires Inv(s) && s.ring.pc.StoreKey?
    ensures Inv(ProducerStep(s, q))
  {
    hide Inv, ProducerStep;
    StartsWithin(s);
    if |s.ring.starts| == |s.ring.entryAt| { StoreKeyNew(s, q); } else { StoreKeyOld(s, q); }
  }

  lemma StartsWithin<T>(s: State<T>)
    requires Inv(s)
    ensures |s.ring.starts| <= |s.ring.entryAt|
  {
    hide HeadersOk, KeysOk, SlotsOk, ValsOk, BlocksOk, CountsOk, ElemsOk, GotOk, RecycleOk, JobsOk, Claims.Inv;
    RingFacts(s.ring, s.claims.tail);
  }

  // ---- a block from the pool

  lemma BlocksTaken(owned: set<Block>, starts: seq<Block>, freed: set<nat>, b: Block)
    requires BlocksOk(owned, starts, freed, []) && b !in owned
    ensures BlocksOk(owned + {b}, starts, freed, [b])
  {
    forall j | Live(starts, freed, j) ensures starts[j] in owned {}
  }

  lemma CountsTaken<T>(counts: map<Block, nat>, owned: set<Block>, starts: seq<Block>, freed: set<nat>,
                       done: set<nat>, p: ProducerPC<T>, p': ProducerPC<T>, b: Block)
    requires CountsOk(counts, starts, freed, done, p) && b !in owned
    requires forall j | Live(starts, freed, j) :: starts[j] in owned
    requires p'.StoreValue? && p'.block == b
    ensures CountsOk(counts[b := 0], starts, freed, done, p')
  {
    forall j | Live(starts, freed, j)
      ensures CountOf(counts[b := 0], starts[j]) == Counted(done, j * BLOCK_SIZE, BLOCK_SIZE) {
      assert starts[j] != b;
    }
  }

  lemma OpRelinked<T>(r: Ring<T>, r': Ring<T>, tail: nat, op: Op<T>, b: Block)
    requires OpOk(r, tail, op) && r'.starts == r.starts && r'.tailBlock == r.tailBlock && r'.next == r.next[b := None]
    requires forall j | 0 <= j < |r.starts| && LinkedFrom(tail) <= j :: r.starts[j] != b
    ensures OpOk(r', tail, op)
  {}

  lemma LiveOwned(owned: set<Block>, starts: seq<Block>, freed: set<nat>, pending: seq<Block>)
    requires BlocksOk(owned, starts, freed, pending)
    ensures forall j | Live(starts, freed, j) :: starts[j] in owned && starts[j] !in pending
  {}

  lemma GrantedRing<T>(r: Ring<T>, tail: nat, b: Block)
    requires RingPcOk(r, tail) && r.pc.Requisition?
    requires forall j | 0 <= j < |r.starts| && LinkedFrom(tail) <= j :: r.starts[j] != b
    ensures RingPcOk(r.(next := if r.pc.op.bulk then r.next[b := None]
              else r.next).At(StoreValue(r.pc.op, r.pc.entry, b)), tail)
  {
    hide SlotOf, LinksOk, LinkedFrom;
    var r' := r.(next := if r.pc.op.bulk then r.next[b := None] else r.next).At(StoreValue(r.pc.op, r.pc.entry, b));
    if r.pc.op.bulk { OpRelinked(r, r', tail, r.pc.op, b); } else { OpSame(r, r', tail, r.pc.op); }
  }

  lemma GrantedStep<T>(s: State<T>, q: Request<T>)
    requires Inv(s) && s.ring.pc.Requisition? && q.Granted?
    ensures Inv(ProducerStep(s, q))
  {
    hide Inv;
    if q.block !in s.owned { TakesBlock(s, q); }
  }

  lemma TakesBlock<T>(s: State<T>, q: Request<T>)
    requires Inv(s) && s.ring.pc.Requisition? && q.Granted? && q.block !in s.owned
    ensures Inv(ProducerStep(s, q))
  {
    hide SlotOf, IndexAt, HeadersOk, KeysOk, RingPcOk, SlotsOk, ValsOk, BlocksOk, CountsOk, ElemsOk, GotOk, RecycleOk,
        JobsOk, LowOk, Claims.Inv, LinkedFrom;
    var r, b := s.ring, q.block;
    UnfinishedDistinct(s);
    LiveOwned(s.owned, r.starts, s.freed, Pending(r.pc));
    GrantedRing(r, s.claims.tail, b);
    var r' := r.(next := if r.pc.op.bulk then r.next[b := None] else r.next).At(StoreValue(r.pc.op, r.pc.entry, b));
    BlocksTaken(s.owned, r.starts, s.freed, b);
    CountsTaken(s.counts, s.owned, r.starts, s.freed, s.done, r.pc, r'.pc, b);
    ValsKept(s.vals, r.entryAt, r.Low(), r.starts, r.pc, r'.pc, s.cleared);
    JobsExtended(s, s.claims, r');
  }

  // ---- entering a block

  lemma LinksAdded<T>(r: Ring<T>, tail: nat, op: Op<T>, b: Block)
    requires OpOk(r, tail, op) && op.need > 0 && (op.bulk ==> NextOf(r.next, b) == None)
    requires DistinctFrom(r.starts, LinkedFrom(tail))
    requires forall j | 0 <= j < |r.starts| && LinkedFrom(tail) <= j :: r.starts[j] != b
    ensures var r' := AddBlock(r, tail, op, b); LinksOk(r', tail, r'.pc.op)
  {
    WrapModulo(tail, BLOCK_SIZE);
    var r', c := AddBlock(r, tail, op, b), |r.starts|;
    forall j | LinkedFrom(tail) <= j < c ensures NextOf(r'.next, r'.starts[j]) == Some(r'.starts[j + 1]) {
      if j < c - 1 { assert r.starts[j] != r.starts[c - 1]; }
    }
  }

  lemma AddsBlock<T>(r: Ring<T>, tail: nat, op: Op<T>, b: Block)
    requires OpOk(r, tail, op) && op.need > 0 && (op.bulk ==> NextOf(r.next, b) == None)
    requires DistinctFrom(r.starts, LinkedFrom(tail))
    requires forall j | 0 <= j < |r.starts| && LinkedFrom(tail) <= j :: r.starts[j] != b
    ensures var r' := AddBlock(r, tail, op, b); OpOk(r', tail, r'.pc.op)
  {
    hide LinksOk, LinkedFrom, Wrap;
    LinksAdded(r, tail, op, b);
    NextBaseIsExact(|r.starts|);
  }

  lemma StoreValueRing<T>(r: Ring<T>, tail: nat, op: Op<T>, e: Entry, b: Block)
    requires RingPcOk(r, tail) && r.pc == StoreValue(op, e, b)
    requires DistinctFrom(r.starts, LinkedFrom(tail))
    requires forall j | 0 <= j < |r.starts| && LinkedFrom(tail) <= j :: r.starts[j] != b
    ensures RingPcOk(AddBlock(r, tail, op, b), tail)
  {
    hide SlotOf, OpOk, LinkedFrom;
    AddsBlock(r, tail, op, b);
  }

  lemma BlocksEntered(owned: set<Block>, starts: seq<Block>, freed: set<nat>, b: Block)
    requires BlocksOk(owned, starts, freed, [b]) && |starts| !in freed
    ensures BlocksOk(owned, starts + [b], freed, [])
  {
    var starts' := starts + [b];
    forall j | Live(starts', freed, j)
      ensures starts'[j] in owned && (j < |starts| ==> Live(starts, freed, j) && starts'[j] != b) {
      if j < |starts| { assert Live(starts, freed, j) && starts[j] !in [b]; } else { assert b in [b]; }
    }
    forall x | x in owned ensures exists j :: Live(starts', freed, j) && starts'[j] == x {
      if x in [b] {
        assert Live(starts', freed, |starts|);
      } else {
        var j :| Live(starts, freed, j) && starts[j] == x;
        assert Live(starts', freed, j);
      }
    }
  }

  lemma CountsEntered<T>(counts: map<Block, nat>, starts: seq<Block>, freed: set<nat>, done: set<nat>,
                         p: ProducerPC<T>, p': ProducerPC<T>)
    requires CountsOk(counts, starts, freed, done, p) && p.StoreValue? && !p'.StoreValue?
    requires forall k: nat | |starts| * BLOCK_SIZE <= k :: k !in done
    ensures CountsOk(counts, starts + [p.block], freed, done, p')
  {
    var starts' := starts + [p.block];
    NoneCounted(done, |starts| * BLOCK_SIZE, BLOCK_SIZE);
    forall j | Live(starts', freed, j)
      ensures CountOf(counts, starts'[j]) == Counted(done, j * BLOCK_SIZE, BLOCK_SIZE) {
      if j < |starts| { assert Live(starts, freed, j); }
    }
  }

  lemma {:induction false} NoneCounted(done: set<nat>, base: nat, n: nat)
    requires forall k: nat | base <= k :: k !in done
    ensures Counted(done, base, n) == 0
  {
    if n > 0 { NoneCounted(done, base, n - 1); }
  }

  lemma ValsAdded<T>(vals: map<Entry, Block>, keys: map<Entry, nat>, entryAt: seq<Entry>, low: nat, allotted: nat,
                     starts: seq<Block>, p: ProducerPC<T>, p': ProducerPC<T>, cleared: set<nat>, b: Block)
    requires ValsOk(vals, entryAt, low, starts, p, cleared) && KeysOk(keys, entryAt, low, allotted)
    requires low <= |starts| < |entryAt| && |starts| !in cleared && p.StoreValue? && p'.Choose?
    ensures ValsOk(vals[entryAt[|starts|] := b], entryAt, low, starts + [b], p', cleared)
  {
    var c, starts' := |starts|, starts + [b];
    forall q: nat | low <= q < |entryAt|
      ensures ValOf(vals[entryAt[c] := b], entryAt[q]) ==
                if q < |starts'| && q !in cleared && !Reverted(p', q) then Some(starts'[q]) else None
    {
      if q < c { assert entryAt[q] != entryAt[c]; } else if c < q { assert entryAt[c] != entryAt[q]; }
    }
  }

  lemma SlotsAdded(headers: seq<Header>, keys: map<Entry, nat>, vals: map<Entry, Block>, entryAt: seq<Entry>,
                   allotted: nat, c: nat, b: Block)
    requires SlotsOk(headers, vals, allotted) && headers != [] && HeaderOk(headers[|headers| - 1], entryAt)
    requires headers[|headers| - 1].low <= c < headers[|headers| - 1].top == |entryAt|
    ensures SlotsOk(headers, vals[entryAt[c] := b], allotted)
  {
    hide SlotOf;
    var h := headers[|headers| - 1];
    assert IndexAt(h, c) == entryAt[c];
    InIndex(h, c);
    forall q | h.top <= q < h.low + h.capacity ensures ValOf(vals[entryAt[c] := b], IndexAt(h, q)).None? {
      SlotsApart(h, c, q);
      assert ValOf(vals, IndexAt(h, q)).None?;
    }
  }

  lemma ElemsMoved<T>(elems: map<(Block, nat), T>, starts: seq<Block>, starts': seq<Block>, freed: set<nat>,
                      values: seq<T>, got: map<nat, T>, c0: nat)
    requires ElemsOk(elems, starts, freed, values, got) && |values| <= c0 * BLOCK_SIZE
    requires c0 <= |starts'| && forall j | 0 <= j < c0 :: BlockAt(starts', j) == BlockAt(starts, j)
    ensures ElemsOk(elems, starts', freed, values, got)
  {
    forall k: nat | k < |values| ensures Home(starts', k) == Home(starts, k) && k / BLOCK_SIZE < |starts'| {}
  }

  lemma TailInBlocks(tail: nat)
    ensures tail <= CeilBlocks(tail) * BLOCK_SIZE
  {}

  lemma NotDoneYet<T>(s: State<T>, k: nat)
    requires Inv(s) && s.claims.tail <= k
    ensures k !in s.done && k !in s.got
  {
    hide RingInv, SlotsOk, ValsOk, BlocksOk, CountsOk, ValuesOk, ElemsOk, JobsOk, RecycleOk, Claims.Inv;
    Claims.OutstandingBelowTail(s.claims, []);
  }

  lemma EnteredIndex<T>(r: Ring<T>, tail: nat)
    requires RingInv(r, tail) && r.pc.StoreValue?
    ensures r.headers != [] && HeaderOk(r.Current(), r.entryAt) && |r.starts| < r.Current().top == |r.entryAt|
    ensures r.pc.entry == r.entryAt[|r.starts|]
  {
    hide SlotOf, IndexAt, OpOk;
    CurrentHeader(r.headers, r.entryAt);
  }

  lemma StoreValueStep<T>(s: State<T>, q: Request<T>)
    requires Inv(s) && s.ring.pc.StoreValue?
    ensures Inv(ProducerStep(s, q))
  {
    hide SlotOf, IndexAt, HeadersOk, KeysOk, RingPcOk, SlotsOk, ValsOk, BlocksOk, CountsOk, ElemsOk, GotOk, RecycleOk,
        JobsOk, LowOk, Claims.Inv, LinkedFrom, HeaderOk, Wrap;
    var r, tail, op, e, b, c := s.ring, s.claims.tail, s.ring.pc.op, s.ring.pc.entry, s.ring.pc.block, |s.ring.starts|;
    var r' := AddBlock(r, tail, op, b);
    LowIsPublished(s);
    RingFacts(r, tail);
    EnteredIndex(r, tail);
    UnfinishedDistinct(s);
    LiveOwned(s.owned, r.starts, s.freed, Pending(r.pc));
    assert b in Pending(r.pc);
    StoreValueRing(r, tail, op, e, b);
    UnfinishedIsLive(s, c) by { CeilIsLinked(tail); }
    BlocksEntered(s.owned, r.starts, s.freed, b);
    TailInBlocks(tail);
    forall k: nat | c * BLOCK_SIZE <= k ensures k !in s.done { NotDoneYet(s, k); }
    CountsEntered(s.counts, r.starts, s.freed, s.done, r.pc, r'.pc);
    ValsAdded(s.vals, r.keys, r.entryAt, r.Low(), r.allotted, r.starts, r.pc, r'.pc, s.cleared, b);
    SlotsAdded(r.headers, r.keys, s.vals, r.entryAt, r.allotted, c, b);
    ElemsMoved(s.elems, r.starts, r'.starts, s.freed, s.values, s.got, CeilBlocks(tail));
    JobsExtended(s, s.claims, r');
  }

  lemma CeilIsLinked(tail: nat)
    ensures LinkedFrom(tail) <= CeilBlocks(tail)
  {}

  // ---- giving everything back

  lemma ClearedAlready<T>(s: State<T>)
    requires Inv(s) && s.ring.pc.ClearValue?
    ensures s.vals - {s.ring.pc.entry} == s.vals
  {
    hide SlotOf, IndexAt, HeadersOk, KeysOk, SlotsOk, BlocksOk, CountsOk, ElemsOk, GotOk, RecycleOk, JobsOk, LowOk,
        Claims.Inv, OpOk;
    var r, c := s.ring, |s.ring.starts|;
    LowIsPublished(s);
    RingFacts(r, s.claims.tail);
    assert ValOf(s.vals, r.entryAt[c]).None?;
  }

  lemma ClearValueRing<T>(r: Ring<T>, tail: nat)
    requires RingPcOk(r, tail) && r.pc.ClearValue?
    ensures RingPcOk(r.At(Fail(tail, r.pc.op)), tail)
  {
    hide SlotOf, OpOk;
    Fails(r, tail, r.pc.op);
  }

  lemma ClearValueStep<T>(s: State<T>, q: Request<T>)
    requires Inv(s) && s.ring.pc.ClearValue?
    ensures Inv(ProducerStep(s, q))
  {
    hide SlotOf, IndexAt, HeadersOk, KeysOk, RingPcOk, SlotsOk, ValsOk, BlocksOk, CountsOk, ElemsOk, GotOk, RecycleOk,
        JobsOk, LowOk, Claims.Inv, OnlyIndexTail;
    ClearedAlready(s);
    ClearValueRing(s.ring, s.claims.tail);
    var r' := s.ring.At(Fail(s.claims.tail, s.ring.pc.op));
    OnlyPlace(s.ring, r');
    Quiet(s, r');
  }

  /// The producer's own lookup lands on the entry it is about to clear.
  lemma LookupFinds<T>(r: Ring<T>, tail: nat, i: nat, at: nat)
    requires RingInv(r, tail) && r.headers != [] && r.Current().at == at + 1 && r.Current().top == |r.entryAt|
    requires r.Low() <= i < |r.entryAt| && r.Low() <= at < |r.entryAt|
    ensures Lookup(r, Wrap(i * BLOCK_SIZE)) == r.entryAt[i]
  {
    hide RingPcOk, HeadersOk;
    CurrentHeader(r.headers, r.entryAt);
    var h := r.Current();
    KeyAt(r, tail, h, at);
    PowersDivideWord(h.capacity);
    assert i * BLOCK_SIZE / BLOCK_SIZE == i;
    LookupIsExact(i * BLOCK_SIZE, i, at, h.origin, h.tail, h.capacity);
    assert IndexAt(h, i) == r.entryAt[i];
  }

  lemma RevertFacts<T>(r: Ring<T>, tail: nat)
    requires RingPcOk(r, tail) && r.pc.Revert? && r.pc.chain.Some?
    ensures var i := r.pc.i;
            && CeilBlocks(tail) == r.pc.op.c0 <= i < |r.starts| && r.headers != []
                  && |r.starts| <= |r.entryAt| == r.Current().top
            && r.Current().at == |r.starts| - (i - r.pc.op.c0) && Wrap(r.pc.base + BLOCK_SIZE) == Wrap(i * BLOCK_SIZE)
            && r.pc.chain == Some(r.starts[i])
    ensures RingPcOk(r.At(RevertRewind(r.pc.op, r.pc.chain.value, Wrap(r.pc.base + BLOCK_SIZE), r.pc.i)), tail)
  {
    hide SlotOf, LinksOk;
    NextBaseIsExact(r.pc.i);
    OpSame(r, r.At(RevertRewind(r.pc.op, r.pc.chain.value, Wrap(r.pc.base + BLOCK_SIZE), r.pc.i)), tail, r.pc.op);
  }

  lemma ValsReverted<T>(vals: map<Entry, Block>, keys: map<Entry, nat>, entryAt: seq<Entry>, low: nat, allotted: nat,
                        starts: seq<Block>, p: ProducerPC<T>, p': ProducerPC<T>, cleared: set<nat>)
    requires ValsOk(vals, entryAt, low, starts, p, cleared) && KeysOk(keys, entryAt, low, allotted)
    requires p.Revert? && p'.RevertRewind? && p'.op == p.op && p'.i == p.i && low <= p.op.c0 <= p.i < |entryAt|
    ensures ValsOk(vals - {entryAt[p.i]}, entryAt, low, starts, p', cleared)
  {
    var i := p.i;
    forall q: nat | low <= q < |entryAt|
      ensures ValOf(vals - {entryAt[i]}, entryAt[q]) ==
                if q < |starts| && q !in cleared && !Reverted(p', q) then Some(starts[q]) else None
    {
      if q < i { assert entryAt[q] != entryAt[i]; } else if i < q { assert entryAt[i] != entryAt[q]; }
    }
  }

  lemma RevertStep<T>(s: State<T>, q: Request<T>)
    requires Inv(s) && s.ring.pc.Revert? && s.ring.pc.chain.Some?
    ensures Inv(ProducerStep(s, q))
    ensures s.ring.pc.i < |s.ring.entryAt|
            && Lookup(s.ring, Wrap(s.ring.pc.base + BLOCK_SIZE)) == s.ring.entryAt[s.ring.pc.i]
  {
    hide SlotOf, IndexAt, HeadersOk, KeysOk, RingPcOk, SlotsOk, ValsOk, BlocksOk, CountsOk, ElemsOk, GotOk, RecycleOk,
        JobsOk, LowOk, Claims.Inv, Lookup, Wrap;
    var r, i := s.ring, s.ring.pc.i;
    LowIsPublished(s);
    RevertFacts(r, s.claims.tail);
    LookupFinds(r, s.claims.tail, i, |r.starts| - (i - r.pc.op.c0) - 1);
    var r' := r.At(RevertRewind(r.pc.op, r.pc.chain.value, Wrap(r.pc.base + BLOCK_SIZE), i));
    ValsReverted(s.vals, r.keys, r.entryAt, r.Low(), r.allotted, r.starts, r.pc, r'.pc, s.cleared);
    SlotsCleared(r.headers, s.vals, r.allotted, r.entryAt[i]);
    CountsSame(s.counts, r.starts, s.freed, s.done, r.pc, r'.pc);
    JobsExtended(s, s.claims, r');
  }

  function Abandon<T>(r: Ring<T>): Ring<T>
    requires r.pc.Revert? && r.pc.op.c0 <= |r.starts|
  {
    r.(starts := r.starts[..r.pc.op.c0]).At(ReturnBlocks(r.pc.op, r.pc.op.first, r.starts[r.pc.op.c0..]))
  }

  lemma AbandonRing<T>(r: Ring<T>, tail: nat)
    requires RingPcOk(r, tail) && r.pc.Revert? && r.pc.chain.None?
    ensures r.pc.op.c0 == CeilBlocks(tail) <= |r.starts| && r.pc.i == |r.starts|
    ensures RingPcOk(Abandon(r), tail)
  {
    hide SlotOf;
    var op, rest := r.pc.op, r.starts[r.pc.op.c0..];
    forall j | 0 <= j < |rest| ensures NextOf(r.next, rest[j]) == if j + 1 < |rest| then Some(rest[j + 1]) else None {
      RevertedLink(r, tail, op, op.c0 + j);
    }
  }

  lemma BlocksAbandoned(owned: set<Block>, starts: seq<Block>, freed: set<nat>, c0: nat)
    requires BlocksOk(owned, starts, freed, []) && c0 <= |starts|
    requires forall j | c0 <= j < |starts| :: Live(starts, freed, j)
    ensures BlocksOk(owned, starts[..c0], freed, starts[c0..])
  {
    var starts', rest := starts[..c0], starts[c0..];
    assert forall i | 0 <= i < |rest| :: Live(starts, freed, c0 + i) && rest[i] == starts[c0 + i];
    forall j | Live(starts', freed, j) ensures starts'[j] in owned && starts'[j] !in rest {
      assert Live(starts, freed, j);
    }
    forall i, j | Live(starts', freed, i) && Live(starts', freed, j) && i != j ensures starts'[i] != starts'[j] {
      assert Live(starts, freed, i) && Live(starts, freed, j);
    }
    forall b | b in owned ensures b in rest || exists j :: Live(starts', freed, j) && starts'[j] == b {
      var j :| Live(starts, freed, j) && starts[j] == b;
      if j < c0 { assert Live(starts', freed, j); } else { assert rest[j - c0] == b; }
    }
    forall i, j | 0 <= i < j < |rest| ensures rest[i] != rest[j] {
      assert Live(starts, freed, c0 + i) && Live(starts, freed, c0 + j);
    }
    forall b | b in rest ensures b in owned {
      var i :| 0 <= i < |rest| && rest[i] == b;
      assert Live(starts, freed, c0 + i);
    }
  }

  lemma CountsAbandoned<T>(counts: map<Block, nat>, starts: seq<Block>, freed: set<nat>, done: set<nat>,
                           p: ProducerPC<T>, p': ProducerPC<T>, c0: nat)
    requires CountsOk(counts, starts, freed, done, p) && c0 <= |starts| && !p'.StoreValue?
    ensures CountsOk(counts, starts[..c0], freed, done, p')
  {
    forall j | Live(starts[..c0], freed, j)
      ensures CountOf(counts, starts[..c0][j]) == Counted(done, j * BLOCK_SIZE, BLOCK_SIZE) {
      assert Live(starts, freed, j);
    }
  }

  lemma ValsAbandoned<T>(vals: map<Entry, Block>, entryAt: seq<Entry>, low: nat, starts: seq<Block>, p: ProducerPC<T>,
                         p': ProducerPC<T>, cleared: set<nat>)
    requires ValsOk(vals, entryAt, low, starts, p, cleared) && p.Revert? && p.op.c0 <= p.i == |starts|
              && p'.ReturnBlocks?
    ensures ValsOk(vals, entryAt, low, starts[..p.op.c0], p', cleared)
  {}

  lemma AbandonStep<T>(s: State<T>, q: Request<T>)
    requires Inv(s) && s.ring.pc.Revert? && s.ring.pc.chain.None?
    ensures Inv(ProducerStep(s, q))
  {
    hide SlotOf, IndexAt, HeadersOk, KeysOk, RingPcOk, SlotsOk, ValsOk, BlocksOk, CountsOk, ElemsOk, GotOk, RecycleOk,
        JobsOk, LowOk, Claims.Inv, LinkedFrom, Live;
    var r, tail := s.ring, s.claims.tail;
    AbandonRing(r, tail);
    var r', c0 := Abandon(r), r.pc.op.c0;
    CeilIsLinked(tail);
    UnfinishedDistinct(s);
    BlocksAbandoned(s.owned, r.starts, s.freed, c0);
    CountsAbandoned(s.counts, r.starts, s.freed, s.done, r.pc, r'.pc, c0);
    ValsAbandoned(s.vals, r.entryAt, r.Low(), r.starts, r.pc, r'.pc, s.cleared);
    TailInBlocks(tail);
    ElemsMoved(s.elems, r.starts, r'.starts, s.freed, s.values, s.got, c0);
    JobsExtended(s, s.claims, r');
  }

  lemma ReturnRing<T>(r: Ring<T>, tail: nat)
    requires RingPcOk(r, tail) && r.pc.ReturnBlocks? && r.pc.chain.Some?
    ensures r.pc.rest != [] && r.pc.chain == Some(r.pc.rest[0])
    ensures RingPcOk(r.At(ReturnBlocks(r.pc.op, NextOf(r.next, r.pc.chain.value), r.pc.rest[1..])), tail)
  {
    hide SlotOf, Listed;
    ListedSame(r, r.At(ReturnBlocks(r.pc.op, NextOf(r.next, r.pc.chain.value), r.pc.rest[1..])), tail, |r.starts|);
    ChainRest(r.next, r.pc.chain, r.pc.rest);
  }

  lemma ChainRest(next: map<Block, Option<Block>>, chain: Option<Block>, rest: seq<Block>)
    requires ChainOk(next, chain, rest) && chain.Some?
    ensures rest != [] && chain.value == rest[0] && ChainOk(next, NextOf(next, chain.value), rest[1..])
  {
    assert NextOf(next, rest[0]) == if 0 + 1 < |rest| then Some(rest[0 + 1]) else None;
    forall j | 0 <= j < |rest[1..]|
      ensures NextOf(next, rest[1..][j]) == if j + 1 < |rest[1..]| then Some(rest[1..][j + 1]) else None {
      assert rest[1..][j] == rest[j + 1];
    }
  }

  lemma PendingReturned(owned: set<Block>, starts: seq<Block>, freed: set<nat>, pending: seq<Block>)
    requires BlocksOk(owned, starts, freed, pending) && pending != []
    ensures BlocksOk(owned - {pending[0]}, starts, freed, pending[1..])
  {
    assert pending[0] in pending && forall b <- pending[1..] :: b in pending;
    forall b | b in owned - {pending[0]}
      ensures b in pending[1..] || exists j :: Live(starts, freed, j) && starts[j] == b {
      if b in pending {
        var i :| 0 <= i < |pending| && pending[i] == b;
        assert pending[1..][i - 1] == b;
      }
    }
  }

  lemma ReturnStep<T>(s: State<T>, q: Request<T>)
    requires Inv(s) && s.ring.pc.ReturnBlocks? && s.ring.pc.chain.Some?
    ensures Inv(ProducerStep(s, q))
  {
    hide SlotOf, IndexAt, HeadersOk, KeysOk, RingPcOk, SlotsOk, ValsOk, BlocksOk, CountsOk, ElemsOk, GotOk, RecycleOk,
        JobsOk, LowOk, Claims.Inv;
    var r := s.ring;
    ReturnRing(r, s.claims.tail);
    var r' := r.At(ReturnBlocks(r.pc.op, NextOf(r.next, r.pc.chain.value), r.pc.rest[1..]));
    PendingReturned(s.owned, r.starts, s.freed, r.pc.rest);
    CountsSame(s.counts, r.starts, s.freed, s.done, r.pc, r'.pc);
    ValsKept(s.vals, r.entryAt, r.Low(), r.starts, r.pc, r'.pc, s.cleared);
    JobsExtended(s, s.claims, r');
  }

  // ---- constructing elements and publishing them

  lemma ConstructPlace<T>(r: Ring<T>, tail: nat)
    requires RingPcOk(r, tail) && r.pc.Construct? && r.pc.k != r.pc.stop
    ensures var k := r.pc.k;
            && tail <= k < tail + |r.pc.op.values| && r.tailBlock.Some?
            && (r.tailBlock.value, k % BLOCK_SIZE) == Home(r.starts, k) && k / BLOCK_SIZE < |r.starts|
  {
    hide SlotOf, LinksOk;
    assert r.pc.k / BLOCK_SIZE == r.pc.j;
  }

  /// The place the producer constructs in is raw memory, and the right one for the index.
  lemma PlaceIsRaw<T>(s: State<T>)
    requires Inv(s) && s.ring.pc.Construct? && s.ring.pc.k != s.ring.pc.stop
    ensures var k := s.ring.pc.k;
            && s.claims.tail <= k < s.claims.tail + |s.ring.pc.op.values| && |s.values| == k && k !in s.got
            && s.ring.tailBlock.Some? && (s.ring.tailBlock.value, k % BLOCK_SIZE) == Home(s.ring.starts, k)
            && Live(s.ring.starts, s.freed, k / BLOCK_SIZE) && Home(s.ring.starts, k) !in s.elems
  {
    hide SlotOf, HeadersOk, KeysOk, RingPcOk, SlotsOk, ValsOk, BlocksOk, CountsOk, GotOk, RecycleOk, JobsOk, LowOk,
        Claims.Inv, Home;
    ConstructPlace(s.ring, s.claims.tail);
    var k := s.ring.pc.k;
    NotDoneYet(s, k);
    assert k / BLOCK_SIZE !in s.freed by {
      assert RecycleOk(s.done, s.closer, s.cleared, s.freed, s.cpc);
      UncountedIsLive(s.done, s.closer, s.cleared, s.freed, s.cpc, k);
    }
    if Home(s.ring.starts, k) in s.elems {
      var l: nat :| l < |s.values| && l !in s.got && Home(s.ring.starts, k) == Home(s.ring.starts, l);
      HomesDiffer(s.owned, s.ring.starts, s.freed, Pending(s.ring.pc), k, l);
    }
  }

  lemma ElemAdded<T>(elems: map<(Block, nat), T>, owned: set<Block>, starts: seq<Block>, freed: set<nat>,
                     pending: seq<Block>, values: seq<T>, got: map<nat, T>, v: T)
    requires BlocksOk(owned, starts, freed, pending) && ElemsOk(elems, starts, freed, values, got)
    requires Live(starts, freed, |values| / BLOCK_SIZE) && |values| !in got
    ensures ElemsOk(elems[Home(starts, |values|) := v], starts, freed, values + [v], got)
  {
    hide Home, BlocksOk;
    var k, values' := |values|, values + [v];
    var elems' := elems[Home(starts, k) := v];
    forall l: nat | l < |values'| && l !in got
      ensures Home(starts, l) in elems' && elems'[Home(starts, l)] == values'[l] {
      if l != k { HomesDiffer(owned, starts, freed, pending, k, l); }
    }
    forall x | x in elems' ensures exists l: nat :: l < |values'| && l !in got && x == Home(starts, l) {
      if x != Home(starts, k) {
        var l: nat :| l < |values| && l !in got && x == Home(starts, l);
        assert l < |values'|;
      }
    }
  }

  lemma ConstructRing<T>(r: Ring<T>, tail: nat)
    requires RingPcOk(r, tail) && r.pc.Construct? && r.pc.k != r.pc.stop
    ensures RingPcOk(r.At(Construct(r.pc.op, r.pc.k + 1, r.pc.stop, r.pc.end, r.pc.j)), tail)
  {
    hide SlotOf, LinksOk, Listed;
    var r' := r.At(Construct(r.pc.op, r.pc.k + 1, r.pc.stop, r.pc.end, r.pc.j));
    LinksSame(r, r', tail, r.pc.op);
    ListedSame(r, r', tail, |r.starts|);
  }

  lemma ValuesGrow<T>(p: ProducerPC<T>, tail: nat, values: seq<T>)
    requires ValuesOk(p, tail, values) && p.Construct? && p.k != p.stop && p.k < tail + |p.op.values|
    ensures ValuesOk(Construct(p.op, p.k + 1, p.stop, p.end, p.j), tail, values + [p.op.values[p.k - tail]])
  {
    assert (values + [p.op.values[p.k - tail]])[tail..] == values[tail..] + [p.op.values[p.k - tail]];
  }

  lemma GotPrefix<T>(got: map<nat, T>, done: set<nat>, head: nat, values: seq<T>, v: T)
    requires GotOk(got, done, head, values)
    ensures GotOk(got, done, head, values + [v])
  {}

  lemma ConstructStep<T>(s: State<T>, q: Request<T>)
    requires Inv(s) && s.ring.pc.Construct? && s.ring.pc.k != s.ring.pc.stop
    ensures Inv(ProducerStep(s, q))
  {
    hide SlotOf, IndexAt, HeadersOk, KeysOk, RingPcOk, SlotsOk, ValsOk, BlocksOk, CountsOk, ElemsOk, GotOk, RecycleOk,
        JobsOk, LowOk, Claims.Inv, Home, ValuesOk;
    var r, tail := s.ring, s.claims.tail;
    PlaceIsRaw(s);
    var v := r.pc.op.values[r.pc.k - tail];
    var r' := r.At(Construct(r.pc.op, r.pc.k + 1, r.pc.stop, r.pc.end, r.pc.j));
    ConstructRing(r, tail);
    ValuesGrow(r.pc, tail, s.values);
    GotPrefix(s.got, s.done, s.claims.head, s.values, v);
    ElemAdded(s.elems, s.owned, r.starts, s.freed, Pending(r.pc), s.values, s.got, v);
    CountsSame(s.counts, r.starts, s.freed, s.done, r.pc, r'.pc);
    ValsKept(s.vals, r.entryAt, r.Low(), r.starts, r.pc, r'.pc, s.cleared);
    JobsExtended(s, s.claims, r');
  }

  function Publish<T>(r: Ring<T>): Ring<T> {
    (if r.headers == [] then r else r.SetCurrent(r.Current().(shown := |r.starts|))).At(Resting)
  }

  lemma StoreTailRing<T>(r: Ring<T>, tail: nat, vals: map<Entry, Block>)
    requires RingInv(r, tail) && r.pc.StoreTail? && SlotsOk(r.headers, vals, r.allotted)
    ensures var r' := Publish(r);
            && RingInv(r', tail + |r.pc.op.values|) && SlotsOk(r'.headers, vals, r'.allotted) && r'.Low() == r.Low()
            && RingExtends(r, r', CeilBlocks(tail))
  {
    hide SlotOf, LinksOk, KeysOk;
    var r' := Publish(r);
    CeilGrows(tail, |r.pc.op.values|);
    if r.headers != [] {
      var h, h' := r.Current(), r'.Current();
      assert HeaderOk(h, r.entryAt);
      assert forall q :: IndexAt(h', q) == IndexAt(h, q);
      assert HeaderOk(h', r.entryAt);
      CurrentReplaced(r.headers, h', r.entryAt);
    }
  }

  lemma CeilGrows(tail: nat, n: nat)
    ensures CeilBlocks(tail) <= CeilBlocks(tail + n)
  {}

  lemma PublishValues<T>(p: ProducerPC<T>, tail: nat, values: seq<T>)
    requires ValuesOk(p, tail, values) && p.StoreTail?
    ensures ValuesOk(Resting, tail + |p.op.values|, values)
  {}

  lemma StoreTailStep<T>(s: State<T>, q: Request<T>)
    requires Inv(s) && s.ring.pc.StoreTail?
    ensures Inv(ProducerStep(s, q))
  {
    hide SlotOf, IndexAt, RingInv, SlotsOk, ValsOk, BlocksOk, CountsOk, ElemsOk, GotOk, RecycleOk, JobsOk, LowOk,
        Claims.Inv, ValuesOk, RingExtends;
    var r, tail, n := s.ring, s.claims.tail, |s.ring.pc.op.values|;
    var r' := Publish(r);
    StoreTailRing(r, tail, s.vals);
    Claims.PublishKeepsInv(s.claims, n);
    PublishValues(r.pc, tail, s.values);
    CountsSame(s.counts, r.starts, s.freed, s.done, r.pc, r'.pc);
    ValsKept(s.vals, r.entryAt, r.Low(), r.starts, r.pc, r'.pc, s.cleared);
    JobsExtended(s, s.claims.(tail := tail + n), r');
  }

  lemma ProducerKeepsInv<T>(s: State<T>, q: Request<T>)
    requires Inv(s)
    ensures Inv(ProducerStep(s, q))
  {
    hide Inv, ProducerStep;
    if Place(s.ring, q) {
      PlaceStep(s, q);
    } else if Listing(s.ring.pc, q) {
      ListingStep(s, q);
    } else {
      match s.ring.pc {
        case FindEntry(_) => FindEntryStep(s, q);
        case Grow(_) => GrowStep(s, q);
        case StoreKey(_, _, _) => StoreKeyStep(s, q);
        case Requisition(_, _) => GrantedStep(s, q);
        case StoreValue(_, _, _) => StoreValueStep(s, q);
        case ClearValue(_, _) => ClearValueStep(s, q);
        case Revert(_, chain, _, _) => if chain.Some? { RevertStep(s, q); } else { AbandonStep(s, q); }
        case ReturnBlocks(_, _, _) => ReturnStep(s, q);
        case Construct(_, _, _, _, _) => ConstructStep(s, q);
        case StoreTail(_) => StoreTailStep(s, q);
      }
    }
  }

  // ------------------------------------------------------------- theorems

  /// The index a new producer allocates.
  function FirstIndex(): Header {
    Header(IMPLICIT_INITIAL_INDEX_SIZE, IMPLICIT_INITIAL_INDEX_SIZE - 1,
        seq(IMPLICIT_INITIAL_INDEX_SIZE, i requires i >= 0 => i), 0, 0, 0, 0, 0)
  }

  /// As constructed; the memory for the first block index may not have been available.
  ghost predicate Init<T>(s: State<T>) {
    && Claims.Init(s.claims)
    && (s.ring == Ring(None, Resting, [], map[], 0, map[], [], [])
        || s.ring == Ring(None, Resting, [FirstIndex()], map[], IMPLICIT_INITIAL_INDEX_SIZE, map[], [], []))
    && s.vals == map[] && s.counts == map[] && s.elems == map[] && s.cpc == map[]
    && s.owned == {} && s.values == [] && s.got == map[] && s.done == {} && s.closer == map[] && s.cleared == {}
          && s.freed == {}
  }

  datatype Actor = Producer | Consumer(thread: Thread)

  type Schedule<T> = seq<(Actor, Request<T>)>

  function Move<T>(s: State<T>, m: (Actor, Request<T>)): State<T> {
    match m.0
    case Producer => ProducerStep(s, m.1)
    case Consumer(t) => if t in s.claims.pc then ConsumerStep(s, t, m.1) else s
  }

  function Run<T>(s: State<T>, schedule: Schedule<T>): State<T>
    decreases |schedule|
  {
    if schedule == [] then s else Run(Move(s, schedule[0]), schedule[1..])
  }

  /// No consumer sleeps between its loads until the counters have moved by 2^63.
  predicate NoWrapAround<T>(s: State<T>, schedule: Schedule<T>)
    decreases |schedule|
  {
    schedule == [] ||
    ((schedule[0].0.Consumer? ==> Claims.InRange(s.claims, schedule[0].0.thread))
        && NoWrapAround(Move(s, schedule[0]), schedule[1..]))
  }

  lemma FirstIndexOk()
    ensures HeaderOk(FirstIndex(), []) && SlotsOk([FirstIndex()], map[], IMPLICIT_INITIAL_INDEX_SIZE)
  {
    assert PowerOfTwo(4) by { assert PowerOfTwo(2); }
    assert PowerOfTwo(IMPLICIT_INITIAL_INDEX_SIZE) by { assert PowerOfTwo(8); }
  }

  lemma InitHasInv<T>(s: State<T>)
    requires Init(s)
    ensures Inv(s)
  {
    hide HeaderOk, SlotsOk;
    FirstIndexOk();
    Claims.InitHasInv(s.claims);
    assert SlotsOk(s.ring.headers, s.vals, s.ring.allotted) by { if s.ring.headers == [] { NoSlots(s.ring.headers); } }
    assert CeilBlocks(0) == 0;
    forall j: nat ensures !Full(s.done, j) { NotFull(s.done, j); }
  }

  lemma NotFull(done: set<nat>, j: nat)
    requires done == {}
    ensures !Full(done, j)
  {
    var k := j * BLOCK_SIZE;
    assert k / BLOCK_SIZE == j && k !in done;
  }

  lemma NoSlots(headers: seq<Header>)
    requires headers == []
    ensures SlotsOk(headers, map[], 0)
  {}

  lemma MoveKeepsInv<T>(s: State<T>, m: (Actor, Request<T>))
    requires Inv(s) && (m.0.Consumer? ==> Claims.InRange(s.claims, m.0.thread))
    ensures Inv(Move(s, m))
  {
    hide Inv, ProducerStep, ConsumerStep;
    match m.0 {
      case Producer => ProducerKeepsInv(s, m.1);
      case Consumer(t) => if t in s.claims.pc { ConsumerKeepsInv(s, t, m.1); }
    }
  }

  /// Every interleaving of the producer and any number of consumers keeps the invariant.
  lemma {:induction false} RunKeepsInv<T>(s: State<T>, schedule: Schedule<T>)
    requires Inv(s) && NoWrapAround(s, schedule)
    ensures Inv(Run(s, schedule))
    decreases |schedule|
  {
    hide Inv, Move;
    if schedule != [] {
      MoveKeepsInv(s, schedule[0]);
      RunKeepsInv(Move(s, schedule[0]), schedule[1..]);
    }
  }

  // ---- long runs

  lemma ClaimGrows<T>(s: State<T>, t: Thread, q: Request<T>)
    requires t in s.claims.pc
    ensures var e := ConsumerStep(s, t, q).claims; s.claims.tail <= e.tail && s.claims.optimistic <= e.optimistic
  {
    hide TakeElement, CountEmpty, TakeFromIndex, ReturnBlock, LookUp, Claims.Step;
    OthersKeepHead(s, t);
    Claims.CountersGrow(s.claims, t, if q.Dequeue? then Claims.Dequeue(q.max) else Claims.Go);
  }

  lemma ProducerGrows<T>(s: State<T>, q: Request<T>)
    ensures var e := ProducerStep(s, q).claims; s.claims.tail <= e.tail && s.claims.optimistic == e.optimistic
  {
    hide RingStep, ValsAfter, CountsAfter, ElemsAfter, OwnedAfter, ValuesAfter;
  }

  lemma {:induction false} RunGrows<T>(s: State<T>, schedule: Schedule<T>)
    ensures s.claims.tail <= Run(s, schedule).claims.tail && s.claims.optimistic <= Run(s, schedule).claims.optimistic
    decreases |schedule|
  {
    hide ConsumerStep, ProducerStep;
    if schedule != [] {
      match schedule[0].0 {
        case Producer => ProducerGrows(s, schedule[0].1);
        case Consumer(t) => if t in s.claims.pc { ClaimGrows(s, t, schedule[0].1); }
      }
      RunGrows(Move(s, schedule[0]), schedule[1..]);
    }
  }

  /// A run in which fewer than 2^63 elements are enqueued and asked for never wraps around.
  lemma {:induction false} BoundedRunsDoNotWrap<T>(s: State<T>, schedule: Schedule<T>)
    requires Inv(s) && Run(s, schedule).claims.tail < HALF && Run(s, schedule).claims.optimistic < HALF
    ensures NoWrapAround(s, schedule)
    decreases |schedule|
  {
    hide Inv, Move;
    if schedule != [] {
      RunGrows(s, schedule);
      assert Claims.Inv(s.claims) by { ClaimsHaveInv(s); }
      if schedule[0].0.Consumer? { Claims.CountersInRange(s.claims, schedule[0].0.thread); }
      MoveKeepsInv(s, schedule[0]);
      BoundedRunsDoNotWrap(Move(s, schedule[0]), schedule[1..]);
    }
  }

  lemma ClaimsHaveInv<T>(s: State<T>)
    requires Inv(s)
    ensures Claims.Inv(s.claims)
  {}

  // ---- no step fails

  /// A consumer that has claimed indices never finds an index, an entry, a block or an element
  /// missing: every step takes it on, and it ends only when it has dealt with its last index.
  lemma ConsumerMovesOn<T>(s: State<T>, t: Thread, q: Request<T>)
    requires Inv(s) && t in s.claims.pc && !s.Cpc(t).Idle?
    ensures var p, p' := s.Cpc(t), ConsumerStep(s, t, q).Cpc(t);
            p' != p && (p'.Idle? ==> (p.Count? || p.FreeBlock?) && p.end == p.first + p.n)
  {
    hide Inv, TakeElement, CountEmpty, TakeFromIndex, ReturnBlock, LookUp, ClaimStep;
    SlotsAreThere(s, t);
    match s.Cpc(t) {
      case MoveOut(_, _, _, _, _, _, _) => TakeMovesOn(s, t);
      case Count(_, _, _, _, _, _, _) => CountMovesOn(s, t);
      case ClearEntry(_, _, _, _, _, _, _) => CountMovesOn(s, t);
      case FreeBlock(_, _, _, _, _, _, _) => CountMovesOn(s, t);
      case _ => LookUpMovesOn(s.ring, s.vals, s.Cpc(t));
    }
  }

  /// What a consumer is about to read or write is there.
  lemma SlotsAreThere<T>(s: State<T>, t: Thread)
    requires Inv(s) && !s.Cpc(t).Idle?
    ensures var p := s.Cpc(t);
            && s.ring.headers != []
            && (!p.LoadHeader? ==> p.h < |s.ring.headers|)
            && (p.ReadKey? ==> HasSlot(s.ring.headers[p.h], p.tail))
            && (p.ReadValue? ==>
                  HasSlot(s.ring.headers[p.h], p.slot) && ValOf(s.vals, s.ring.headers[p.h].index[p.slot]).Some?)
            && (p.Count? || p.ClearEntry? || p.FreeBlock? ==> HasSlot(s.ring.headers[p.h], p.slot) && p.begin <= p.end)
  {
    hide Inv, SlotOf, RingInv, ProgressOk, JobOk;
    var p := s.Cpc(t);
    JobAt(s, t);
    JobInRange(p, s.ring.headers, s.ring.starts);
    ClaimedIsLive(s, t, p.first);
    if p.ReadKey? {
      ReadsKeyThere(p, s.ring.headers, s.ring.starts, s.ring.entryAt);
    } else if p.ReadValue? || p.MoveOut? || p.Count? || p.ClearEntry? || p.FreeBlock? {
      SlotFacts(p, s.ring.headers, s.ring.starts);
      if p.ReadValue? { SlotHasBlock(s, t, s.ring.headers[p.h], p.slot, p.i); }
      if p.Count? || p.ClearEntry? || p.FreeBlock? { SegmentInOrder(p, s.ring.headers, s.ring.starts); }
    }
  }

  predicate HasSlot(h: Header, slot: nat) {
    slot < |h.index| && h.capacity > 0
  }

  lemma ReadsKeyThere(p: ConsumerPC, headers: seq<Header>, starts: seq<Block>, entryAt: seq<Entry>)
    requires p.ReadKey? && JobOk(p, headers, starts) && HeaderOk(headers[p.h], entryAt)
    ensures HasSlot(headers[p.h], p.tail)
  {
    hide SlotOf;
  }

  lemma SegmentInOrder(p: ConsumerPC, headers: seq<Header>, starts: seq<Block>)
    requires JobOk(p, headers, starts) && (p.Count? || p.ClearEntry? || p.FreeBlock?)
    ensures p.begin <= p.end
  {
    hide SlotOf;
    StopIndexIsMin(p.begin, p.first + p.n);
  }

  lemma LookUpMovesOn<T>(r: Ring<T>, vals: map<Entry, Block>, p: ConsumerPC)
    requires r.headers != [] && (p.LoadIndexTail? || p.ReadKey? || p.ReadValue? ==> p.h < |r.headers|)
    requires p.ReadKey? ==> HasSlot(r.headers[p.h], p.tail)
    requires p.ReadValue? ==> HasSlot(r.headers[p.h], p.slot) && ValOf(vals, r.headers[p.h].index[p.slot]).Some?
    ensures p.LoadHeader? || p.LoadIndexTail? || p.ReadKey? || p.ReadValue? ==>
              LookUp(r, vals, p) != p && !LookUp(r, vals, p).Idle?
  {
    hide SlotFrom, BlockOffset, Wrap, ValOf;
  }

  lemma TakeMovesOn<T>(s: State<T>, t: Thread)
    requires Inv(s) && s.Cpc(t).MoveOut?
    ensures var p' := TakeElement(s, t).Cpc(t); p' != s.Cpc(t) && !p'.Idle?
  {
    hide Inv, StopIndex;
    if s.Cpc(t).i != StopIndex(s.Cpc(t).begin, s.Cpc(t).first + s.Cpc(t).n) { ElementIsThere(s, t); }
  }

  lemma CountMovesOn<T>(s: State<T>, t: Thread)
    requires s.Cpc(t).Count? || s.Cpc(t).ClearEntry? || s.Cpc(t).FreeBlock?
    requires s.Cpc(t).h < |s.ring.headers| && HasSlot(s.ring.headers[s.Cpc(t).h], s.Cpc(t).slot)
              && s.Cpc(t).begin <= s.Cpc(t).end
    ensures var p := s.Cpc(t);
            && (p.Count? ==> var p' := CountEmpty(s, t).Cpc(t); p' != p && (p'.Idle? ==> p.end == p.first + p.n))
            && (p.ClearEntry? ==> var p' := TakeFromIndex(s, t).Cpc(t); p' != p && !p'.Idle?)
            && (p.FreeBlock? ==> var p' := ReturnBlock(s, t).Cpc(t); p' != p && (p'.Idle? ==> p.end == p.first + p.n))
  {
    hide CountOf, Wrap, Range;
  }

  /// Where the producer may stay: at rest, and when the pool offers a block the producer holds.
  predicate Waits<T>(p: ProducerPC<T>, owned: set<Block>, q: Request<T>) {
    match p
    case Resting => !(q.Enqueue? && (q.bulk || |q.values| == 1) && |q.values| < HALF)
    case Requisition(_, _) => q.Granted? && q.block in owned
    case _ => false
  }

  /// The producer never finds its index, an entry or a block missing: every other step takes it on.
  lemma ProducerMovesOn<T>(s: State<T>, q: Request<T>)
    requires Inv(s)
    ensures ProducerStep(s, q).ring.pc == s.ring.pc <==> Waits(s.ring.pc, s.owned, q)
  {
    hide Inv, RingStep, ValsAfter, CountsAfter, ElemsAfter, OwnedAfter, ValuesAfter;
    RingHasInv(s);
    RingMovesOn(s.ring, s.claims.tail, s.claims.head, s.vals, s.owned, q);
  }

  lemma RingHasInv<T>(s: State<T>)
    requires Inv(s)
    ensures RingInv(s.ring, s.claims.tail) && SlotsOk(s.ring.headers, s.vals, s.ring.allotted)
  {}

  lemma RingMovesOn<T>(r: Ring<T>, tail: nat, head: nat, vals: map<Entry, Block>, owned: set<Block>, q: Request<T>)
    requires RingInv(r, tail) && SlotsOk(r.headers, vals, r.allotted)
    ensures RingStep(r, tail, head, vals, owned, q).pc == r.pc <==> Waits(r.pc, owned, q)
  {
    hide RingInv, SlotsOk, StopIndex, BlocksNeeded, FirstBase, Wrap, CircularLessThan, GrowIndex, EnterKey,
        MoveIndexTail, RewindIndexTail;
    RingIsThere(r, tail);
    if r.pc.Grow? && 2 * r.Current().capacity * BLOCK_SIZE <= HALF { GrowsIndex(r, tail, r.pc.op, vals); }
  }

  lemma RingIsThere<T>(r: Ring<T>, tail: nat)
    requires RingInv(r, tail)
    ensures r.pc.Grow? || r.pc.StoreKey? || r.pc.StoreIndexTail? ==> r.headers != []
    ensures r.pc.Rewind? || r.pc.RevertRewind? ==> r.headers != [] && r.Current().at > 0
    ensures r.pc.FindEntry? && r.headers != [] ==> NextSlot(r.Current()) < |r.Current().index|
    ensures r.pc.Revert? ==> r.pc.op.c0 <= |r.starts|
    ensures r.pc.ReturnBlocks? && r.pc.chain.Some? ==> r.pc.rest != []
  {
    hide SlotOf, LinksOk, LastBlock, CeilBlocks;
    assert r.headers != [] ==> HeaderOk(r.Current(), r.entryAt);
  }

  /// The assertions of the producer: the head has not passed the first index of the block it is
  /// about to get; a block that is linked has one to be linked to; where the producer begins to
  /// construct it has a block for the tail, unless it has nothing to construct; and while it has
  /// not reached its last block it has one to go on from.
  lemma ProducerAsserts<T>(s: State<T>)
    requires Inv(s)
    ensures s.ring.pc.CheckFull? ==> !CircularLessThan(s.ring.pc.op.base, Wrap(s.claims.head))
    ensures s.ring.pc.StoreValue? && (Wrap(s.claims.tail) % BLOCK_SIZE != 0 || s.ring.pc.op.first.Some?) ==>
              s.ring.tailBlock.Some?
    ensures s.ring.pc.Choose? && s.ring.pc.op.need == 0 ==>
              Wrap(s.claims.tail) % BLOCK_SIZE != 0 || s.ring.pc.op.first.Some? || s.ring.pc.op.values == []
    ensures s.ring.pc.Construct? && (s.ring.pc.k != s.ring.pc.stop || s.ring.tailBlock != s.ring.pc.end) ==>
              s.ring.tailBlock.Some?
  {
    hide Inv;
    var r, head, tail := s.ring, s.claims.head, s.claims.tail;
    RingHasInv(s);
    WrapModulo(tail, BLOCK_SIZE);
    if r.pc.CheckFull? {
      HeadInRing(s);
      ChecksFull(r, tail, head);
    } else {
      BlocksAreThere(r, tail);
    }
  }

  /// Blocks whose numbers have left the index lie behind the head.
  lemma HeadInRing<T>(s: State<T>)
    requires Inv(s)
    ensures s.ring.Low() * BLOCK_SIZE <= s.claims.head <= s.claims.tail
  {
    hide SlotOf, RingInv, SlotsOk, ValsOk, BlocksOk, CountsOk, ValuesOk, ElemsOk, JobsOk, EntryFree, Claims.Inv;
    Claims.OutstandingBelowTail(s.claims, []);
    var lo := s.ring.Low();
    if lo > 0 {
      var k := lo * BLOCK_SIZE - 1;
      assert k / BLOCK_SIZE == lo - 1 < lo;
      assert lo - 1 in s.cleared && Full(s.done, lo - 1);
      assert k in s.done;
    }
  }

  lemma ChecksFull<T>(r: Ring<T>, tail: nat, head: nat)
    requires RingInv(r, tail) && r.pc.CheckFull? && r.Low() * BLOCK_SIZE <= head <= tail
    ensures !CircularLessThan(r.pc.op.base, Wrap(head))
  {
    hide SlotOf, LinksOk, LastBlock, IndexAt, KeysOk;
    var base := |r.starts| * BLOCK_SIZE;
    assert r.headers != [] ==> HeaderOk(r.Current(), r.entryAt);
    assert 0 <= base - head <= HALF;
    WrapDifference(base, head);
    WrapSmall(base - head);
  }

  lemma BlocksAreThere<T>(r: Ring<T>, tail: nat)
    requires RingInv(r, tail)
    ensures r.pc.StoreValue? && (tail % BLOCK_SIZE != 0 || r.pc.op.first.Some?) ==> r.tailBlock.Some?
    ensures r.pc.Choose? && r.pc.op.need == 0 ==> tail % BLOCK_SIZE != 0 || r.pc.op.first.Some? || r.pc.op.values == []
    ensures r.pc.Construct? && (r.pc.k != r.pc.stop || r.tailBlock != r.pc.end) ==> r.tailBlock.Some?
  {
    hide SlotOf, LinksOk, HeadersOk, KeysOk, Listed;
  }

  // ---- lookup

  /// The assertion in `get_block_index_index_for_index`: whatever index a consumer has loaded and
  /// wherever its tail was then, the entry it arrives at has the wanted key and a block, the one
  /// in which the producer constructed the element.
  lemma LookupLands<T>(s: State<T>, schedule: Schedule<T>, t: Thread)
    requires Init(s) && NoWrapAround(s, schedule) && Run(s, schedule).Cpc(t).ReadValue?
    ensures var e := Run(s, schedule); var p := e.Cpc(t);
            && p.h < |e.ring.headers| && p.slot < |e.ring.headers[p.h].index|
            && KeyOf(e.ring.keys, e.ring.headers[p.h].index[p.slot]) == Wrap(BlockBase(p.i))
            && p.i / BLOCK_SIZE < |e.ring.starts|
            && ValOf(e.vals, e.ring.headers[p.h].index[p.slot]) == Some(e.ring.starts[p.i / BLOCK_SIZE])
  {
    hide Inv, RingInv, SlotOf, JobOk, ProgressOk;
    InitHasInv(s);
    RunKeepsInv(s, schedule);
    var e := Run(s, schedule);
    var p := e.Cpc(t);
    JobAt(e, t);
    SlotFacts(p, e.ring.headers, e.ring.starts);
    ClaimedIsLive(e, t, p.i);
    SlotHasBlock(e, t, e.ring.headers[p.h], p.slot, p.i);
  }

  // ---- recycling

  lemma CountAt<T>(counts: map<Block, nat>, starts: seq<Block>, freed: set<nat>, done: set<nat>, p: ProducerPC<T>,
                   j: nat)
    requires CountsOk(counts, starts, freed, done, p) && Live(starts, freed, j)
    ensures CountOf(counts, starts[j]) == Counted(done, j * BLOCK_SIZE, BLOCK_SIZE)
  {}

  /// The count of a block never exceeds BLOCK_SIZE, and reaches it with the last of its elements.
  lemma CountIsExact<T>(s: State<T>, t: Thread)
    requires Inv(s) && s.Cpc(t).Count?
    ensures var p := s.Cpc(t); var count := CountOf(s.counts, p.block) + (p.end - p.begin);
            && p.begin <= p.end && count <= BLOCK_SIZE
            && (count == BLOCK_SIZE <==> Full(s.done + Range(p.begin, p.end), p.begin / BLOCK_SIZE))
  {
    hide SlotOf, RingInv, SlotsOk, ValsOk, BlocksOk, CountsOk, ValuesOk, ElemsOk, GotOk, RecycleOk, JobsOk, LowOk,
        EntryFree, Claims.Inv, JobOk, ProgressOk, HeaderOk, Full;
    var p := s.Cpc(t);
    JobAt(s, t);
    SlotFacts(p, s.ring.headers, s.ring.starts);
    CountSegment(p, s.ring.headers, s.ring.starts, s.got, s.done);
    ClaimedIsLive(s, t, p.begin);
    CountsMore(s.counts, s.owned, s.ring.starts, s.freed, Pending(s.ring.pc), s.done, s.ring.pc, p.begin, p.end);
    var j := p.begin / BLOCK_SIZE;
    CountAt(s.counts, s.ring.starts, s.freed, s.done, s.ring.pc, j);
    CountedMore(s.done, p.begin, p.end, j * BLOCK_SIZE, BLOCK_SIZE);
    CountedBounds(s.done + Range(p.begin, p.end), j * BLOCK_SIZE, BLOCK_SIZE);
  }

  /// A block is returned once: the consumer returning it is the only one to, has not done so
  /// before, every element of the block has been delivered, no consumer has an index of it left
  /// to read, and the current index no longer leads to it.
  lemma RecycledByOne<T>(s: State<T>, t: Thread, u: Thread, k: nat)
    requires Inv(s) && s.Cpc(t).FreeBlock? && k / BLOCK_SIZE == s.Cpc(t).begin / BLOCK_SIZE
    ensures var p := s.Cpc(t);
            && p.block in s.owned && k / BLOCK_SIZE !in s.freed
            && k in s.got && k in s.done
            && (Closing(s.Cpc(u), k / BLOCK_SIZE) ==> u == t)
            && (InJob(s.Cpc(u), k) ==> k < CountedTo(s.Cpc(u)))
            && (forall q: nat | s.ring.Low() <= q < |s.ring.entryAt| ::
                  ValOf(s.vals, s.ring.entryAt[q]) != Some(p.block))
  {
    hide SlotOf, RingInv, SlotsOk, CountsOk, ValuesOk, ElemsOk, JobsOk, LowOk, EntryFree, Claims.Inv, JobOk;
    ClosingFacts(s, t);
    JobAt(s, u);
    var p := s.Cpc(t);
    var j := p.begin / BLOCK_SIZE;
    forall q: nat | s.ring.Low() <= q < |s.ring.entryAt| ensures ValOf(s.vals, s.ring.entryAt[q]) != Some(p.block) {
      if q != j && Live(s.ring.starts, s.freed, q) { assert s.ring.starts[q] != s.ring.starts[j]; }
    }
  }

  /// The converse: a block whose elements are all gone has been returned or is being returned.
  lemma FullIsRecycled<T>(s: State<T>, j: nat)
    requires Inv(s) && Full(s.done, j)
    ensures j in s.freed || exists t :: Closing(s.Cpc(t), j)
  {
    hide SlotOf, RingInv, SlotsOk, ValsOk, BlocksOk, CountsOk, ValuesOk, ElemsOk, GotOk, JobsOk, LowOk, EntryFree,
        Claims.Inv, Full;
    if j !in s.freed { assert Closing(s.Cpc(s.closer[j]), j); }
  }

  // ---- first in, first out, exactly once

  /// What the completed enqueue operations of a run passed in, in order.
  function Published<T>(s: State<T>, schedule: Schedule<T>): seq<T>
    decreases |schedule|
  {
    if schedule == [] then []
    else
      (if schedule[0].0.Producer? && s.ring.pc.StoreTail? then s.ring.pc.op.values else [])
      + Published(Move(s, schedule[0]), schedule[1..])
  }

  ghost predicate KeepsRing<T>(s: State<T>, e: State<T>) {
    e.ring == s.ring && e.values == s.values && e.claims.tail == s.claims.tail
  }

  lemma ClaimKeepsRing<T>(s: State<T>, t: Thread, q: Request<T>)
    requires t in s.claims.pc
    ensures KeepsRing(s, ClaimStep(s, t, q)) && ClaimStep(s, t, q).got == s.got && OnlyMoves(s, ClaimStep(s, t, q), t)
  {
    hide Claims.Step;
    Claims.StepEffect(s.claims, t, if q.Dequeue? then Claims.Dequeue(q.max) else Claims.Go);
  }

  ghost predicate OnlyMoves<T>(s: State<T>, e: State<T>, t: Thread) {
    (forall u: Thread | u != t :: e.Cpc(u) == s.Cpc(u)) && s.done <= e.done && s.cleared <= e.cleared
        && s.freed <= e.freed
  }

  lemma TakeKeepsRing<T>(s: State<T>, t: Thread)
    requires s.Cpc(t).MoveOut?
    ensures KeepsRing(s, TakeElement(s, t)) && OnlyMoves(s, TakeElement(s, t), t)
  {
    hide StopIndex;
  }

  lemma CountKeepsRing<T>(s: State<T>, t: Thread)
    ensures s.Cpc(t).Count? ==>
              KeepsRing(s, CountEmpty(s, t)) && CountEmpty(s, t).got == s.got && OnlyMoves(s, CountEmpty(s, t), t)
    ensures s.Cpc(t).ClearEntry? ==>
              KeepsRing(s, TakeFromIndex(s, t)) && TakeFromIndex(s, t).got == s.got
              && OnlyMoves(s, TakeFromIndex(s, t), t)
    ensures s.Cpc(t).FreeBlock? ==>
              KeepsRing(s, ReturnBlock(s, t)) && ReturnBlock(s, t).got == s.got && OnlyMoves(s, ReturnBlock(s, t), t)
  {
    hide AfterCount, NextSegment, CountOf;
  }

  /// What a consumer's step leaves alone.
  lemma ConsumerKeepsRing<T>(s: State<T>, t: Thread, q: Request<T>)
    requires t in s.claims.pc
    ensures var e := ConsumerStep(s, t, q);
            KeepsRing(s, e) && OnlyMoves(s, e, t) && (!s.Cpc(t).MoveOut? ==> e.got == s.got)
  {
    hide TakeElement, CountEmpty, TakeFromIndex, ReturnBlock, ClaimStep, LookUp;
    match s.Cpc(t) {
      case Idle => ClaimKeepsRing(s, t, q);
      case MoveOut(_, _, _, _, _, _, _) => TakeKeepsRing(s, t);
      case Count(_, _, _, _, _, _, _) => CountKeepsRing(s, t);
      case ClearEntry(_, _, _, _, _, _, _) => CountKeepsRing(s, t);
      case FreeBlock(_, _, _, _, _, _, _) => CountKeepsRing(s, t);
      case _ =>
    }
  }

  /// An operation in progress enqueues the values it was called with.
  lemma OperationKeepsValues<T>(s: State<T>, m: (Actor, Request<T>))
    ensures var p, p' := s.ring.pc, Move(s, m).ring.pc;
            p'.Resting? || (p.Resting? && m.0.Producer? && m.1.Enqueue? && p'.op.values == m.1.values)
                || (!p.Resting? && p'.op.values == p.op.values)
  {
    hide RingStep, ConsumerStep;
    if m.0.Consumer? && m.0.thread in s.claims.pc { ConsumerKeepsRing(s, m.0.thread, m.1); }
    if m.0.Producer? { RingKeepsValues(s.ring, s.claims.tail, s.claims.head, s.vals, s.owned, m.1); }
  }

  lemma RingKeepsValues<T>(r: Ring<T>, tail: nat, head: nat, vals: map<Entry, Block>, owned: set<Block>, q: Request<T>)
    ensures var p, p' := r.pc, RingStep(r, tail, head, vals, owned, q).pc;
            p'.Resting? || (p.Resting? && q.Enqueue? && p'.op.values == q.values)
                || (!p.Resting? && p'.op.values == p.op.values)
  {
    hide StopIndex, BlocksNeeded, FirstBase, PreviousBase, GrownIndex, CircularLessThan, Wrap, EnterKey,
        RewindIndexTail, MoveIndexTail, GrowIndex, NextSlot;
    var p' := RingStep(r, tail, head, vals, owned, q).pc;
    match r.pc {
      case Resting => assert p'.Resting? || p'.Choose?;
      case Choose(op) => assert p'.CheckFull? || p'.Construct?;
      case CheckFull(op) => assert p'.FindEntry? || p'.Revert? || p'.Resting?;
      case FindEntry(op) => assert p'.StoreKey? || p'.Grow? || p'.Revert? || p'.Resting?;
      case Grow(op) => assert p'.StoreKey? || p'.Grow? || p'.Revert? || p'.Resting?;
      case StoreKey(op, _, _) => assert p'.StoreKey? || p'.StoreIndexTail?;
      case StoreIndexTail(op, _, _) => assert p'.Requisition?;
      case Requisition(op, _) => assert p'.Rewind? || p'.Requisition? || p'.StoreValue?;
      case StoreValue(op, _, _) => assert p'.Choose?;
      case Rewind(op, _) => assert p'.ClearValue?;
      case ClearValue(op, _) => assert p'.Revert? || p'.Resting?;
      case Revert(op, _, _, _) => assert p'.RevertRewind? || p'.ReturnBlocks? || p'.Revert?;
      case RevertRewind(op, _, _, _) => assert p'.Revert?;
      case ReturnBlocks(op, _, _) => assert p'.ReturnBlocks? || p'.Resting?;
      case Construct(op, _, _, _, _) => assert p'.Construct? || p'.StoreTail?;
      case StoreTail(op) => assert p'.Resting?;
    }
  }

  lemma TailWithin<T>(s: State<T>)
    requires Inv(s)
    ensures s.claims.tail <= |s.values| && ValuesOk(s.ring.pc, s.claims.tail, s.values)
  {
    hide RingInv, SlotsOk, ValsOk, BlocksOk, CountsOk, ElemsOk, GotOk, RecycleOk, JobsOk, LowOk, EntryFree, Claims.Inv;
  }

  lemma ProducerPublishes<T>(s: State<T>, q: Request<T>)
    requires s.claims.tail <= |s.values| && ValuesOk(s.ring.pc, s.claims.tail, s.values)
    ensures var e := ProducerStep(s, q);
            && e.claims.tail <= |e.values| && s.values <= e.values
            && e.values[..e.claims.tail] ==
                  s.values[..s.claims.tail] + (if s.ring.pc.StoreTail? then s.ring.pc.op.values else [])
  {
    hide RingStep, ValsAfter;
    var e, tail := ProducerStep(s, q), s.claims.tail;
    if s.ring.pc.StoreTail? {
      assert s.values[..tail] + s.values[tail..] == s.values;
      assert e.values[..e.claims.tail] == s.values;
    } else {
      ProducerExtends(s, q);
    }
  }

  lemma ProducerExtends<T>(s: State<T>, q: Request<T>)
    requires !s.ring.pc.StoreTail?
    ensures ProducerStep(s, q).claims == s.claims && s.values <= ProducerStep(s, q).values
  {
    hide RingStep, ValsAfter;
  }

  lemma PublishStep<T>(s: State<T>, m: (Actor, Request<T>))
    requires Inv(s)
    ensures var e := Move(s, m);
            && s.claims.tail <= |s.values| && e.claims.tail <= |e.values| && s.values <= e.values
            && e.values[..e.claims.tail]
               == s.values[..s.claims.tail] +
                   (if m.0.Producer? && s.ring.pc.StoreTail? then s.ring.pc.op.values else [])
  {
    hide Inv, ProducerStep, ConsumerStep;
    TailWithin(s);
    if m.0.Producer? {
      ProducerPublishes(s, m.1);
    } else if m.0.thread in s.claims.pc {
      ConsumerKeepsRing(s, m.0.thread, m.1);
    }
  }

  lemma {:induction false} PublishedInOrder<T>(s: State<T>, schedule: Schedule<T>)
    requires Inv(s) && NoWrapAround(s, schedule)
    ensures var e := Run(s, schedule);
            s.claims.tail <= |s.values| && e.claims.tail <= |e.values| && s.values <= e.values
            && e.values[..e.claims.tail] == s.values[..s.claims.tail] + Published(s, schedule)
    decreases |schedule|
  {
    hide Inv, Move;
    TailWithin(s);
    if schedule == [] {
      assert s.values[..s.claims.tail] + [] == s.values[..s.claims.tail];
    } else {
      MoveKeepsInv(s, schedule[0]);
      PublishStep(s, schedule[0]);
      PublishedInOrder(Move(s, schedule[0]), schedule[1..]);
    }
  }

  lemma ProducerDelivers<T>(s: State<T>, q: Request<T>)
    ensures ProducerStep(s, q).got == s.got && ProducerStep(s, q).done == s.done && ProducerStep(s, q).cpc == s.cpc
    ensures ProducerStep(s, q).cleared == s.cleared && ProducerStep(s, q).freed == s.freed
  {
    hide RingStep, ValsAfter;
  }

  /// A move delivers at most one element, which nobody got before: the one at its index, taken
  /// out of the place where it was constructed.  What has been delivered stays delivered.
  lemma DeliveredOnce<T>(s: State<T>, m: (Actor, Request<T>), k: nat)
    requires Inv(s)
    ensures var e := Move(s, m);
            && (k in s.got ==> k in e.got && e.got[k] == s.got[k])
            && (k in e.got && k !in s.got ==>
                  k < s.claims.head && k < |s.values| && e.got[k] == s.values[k]
                  && Home(s.ring.starts, k) in s.elems && s.elems[Home(s.ring.starts, k)] == s.values[k]
                  && e.elems == s.elems - {Home(s.ring.starts, k)})
  {
    hide Inv, Home, ProducerStep, StopIndex;
    if m.0.Producer? {
      ProducerDelivers(s, m.1);
    } else if m.0.thread in s.claims.pc {
      var t := m.0.thread;
      var p := s.Cpc(t);
      if !p.MoveOut? {
        hide ConsumerStep;
        ConsumerKeepsRing(s, t, m.1);
      } else if p.i != StopIndex(p.begin, p.first + p.n) {
        ElementIsThere(s, t);
      }
    }
  }

  /// First in, first out: in every run the consumer of index k got the k-th value enqueued.
  lemma FirstInFirstOut<T>(s: State<T>, schedule: Schedule<T>, k: nat)
    requires Init(s) && NoWrapAround(s, schedule)
    requires k in Run(s, schedule).got
    ensures k < Run(s, schedule).claims.head <= |Published(s, schedule)|
    ensures Run(s, schedule).got[k] == Published(s, schedule)[k]
  {
    hide Move, RingInv, SlotsOk, ValsOk, BlocksOk, CountsOk, ElemsOk, RecycleOk, JobsOk, LowOk, EntryFree, ValuesOk,
        Claims.Inv;
    InitHasInv(s);
    RunKeepsInv(s, schedule);
    PublishedInOrder(s, schedule);
    var e := Run(s, schedule);
    Claims.OutstandingBelowTail(e.claims, []);
    assert e.values[..e.claims.tail] == Published(s, schedule);
  }

  // ---- conservation

  /// Every index below the head has been dealt with or is being dealt with by a consumer.
  ghost predicate Accounted<T>(s: State<T>) {
    forall k: nat | k < s.claims.head && k !in s.done :: exists t :: InJob(s.Cpc(t), k)
  }

  /// A consumer keeps its claim until it has counted every index of it.
  lemma ConsumerKeepsJob<T>(s: State<T>, t: Thread, q: Request<T>, k: nat)
    requires JobOk(s.Cpc(t), s.ring.headers, s.ring.starts) && ProgressOk(s.Cpc(t), s.got, s.done)
    requires s.Cpc(t).FreeBlock? || s.Cpc(t).Count? ==> HeaderOk(s.ring.headers[s.Cpc(t).h], s.ring.entryAt)
    requires t in s.claims.pc && InJob(s.Cpc(t), k)
    ensures InJob(ConsumerStep(s, t, q).Cpc(t), k) || k in ConsumerStep(s, t, q).done
  {
    hide SlotOf, ClaimStep, StopIndex, AtHeader, HeaderOk, JobOk, ProgressOk, TakeElement, CountEmpty, TakeFromIndex,
        ReturnBlock, LookUp, CountedTo, Wrap, InJob;
    NotIdleInJob(s.Cpc(t), k);
    match s.Cpc(t) {
      case MoveOut(_, _, _, _, _, _, _) => TakeKeepsJob(s, t, k);
      case Count(_, _, _, _, _, _, _) => CountKeepsJob(s, t, k);
      case ClearEntry(_, _, _, _, _, _, _) => CountKeepsJob(s, t, k);
      case FreeBlock(_, _, _, _, _, _, _) => CountKeepsJob(s, t, k);
      case _ => LookUpKeepsJob(s.ring, s.vals, s.Cpc(t), k);
    }
  }

  lemma LookUpKeepsJob<T>(r: Ring<T>, vals: map<Entry, Block>, p: ConsumerPC, k: nat)
    requires InJob(p, k)
    ensures InJob(LookUp(r, vals, p), k)
  {
    hide SlotFrom, BlockOffset, Wrap;
  }

  lemma TakeKeepsJob<T>(s: State<T>, t: Thread, k: nat)
    requires s.Cpc(t).MoveOut? && InJob(s.Cpc(t), k)
    ensures InJob(TakeElement(s, t).Cpc(t), k)
  {
    hide StopIndex;
  }

  lemma NotIdleInJob(p: ConsumerPC, k: nat)
    requires InJob(p, k)
    ensures !p.Idle?
  {}

  lemma CountKeepsJob<T>(s: State<T>, t: Thread, k: nat)
    requires ProgressOk(s.Cpc(t), s.got, s.done) && InJob(s.Cpc(t), k)
    requires JobOk(s.Cpc(t), s.ring.headers, s.ring.starts)
    requires s.Cpc(t).FreeBlock? || s.Cpc(t).Count? ==> HeaderOk(s.ring.headers[s.Cpc(t).h], s.ring.entryAt)
    ensures s.Cpc(t).Count? ==> var e := CountEmpty(s, t); InJob(e.Cpc(t), k) || k in e.done
    ensures s.Cpc(t).ClearEntry? ==> var e := TakeFromIndex(s, t); InJob(e.Cpc(t), k) || k in e.done
    ensures s.Cpc(t).FreeBlock? ==> var e := ReturnBlock(s, t); InJob(e.Cpc(t), k) || k in e.done
  {
    hide StopIndex, SlotOf;
    assert k in s.done <==> k < CountedTo(s.Cpc(t));
  }

  lemma MoveIsLocal<T>(s: State<T>, m: (Actor, Request<T>), u: Thread)
    requires m.0 != Consumer(u)
    ensures Move(s, m).Cpc(u) == s.Cpc(u) && s.done <= Move(s, m).done
  {
    hide ProducerStep, ConsumerStep;
    match m.0 {
      case Producer => ProducerDelivers(s, m.1);
      case Consumer(t) => if t in s.claims.pc { ConsumerKeepsRing(s, t, m.1); }
    }
  }

  lemma MoveGrantsHead<T>(s: State<T>, m: (Actor, Request<T>), k: nat)
    requires Inv(s)
    requires s.claims.head <= k < Move(s, m).claims.head
    ensures m.0.Consumer? && InJob(Move(s, m).Cpc(m.0.thread), k)
  {
    hide RingStep, ValsAfter, Inv, TakeElement, CountEmpty, TakeFromIndex, ReturnBlock, LookUp, Claims.Step;
    if m.0.Consumer? {
      var t := m.0.thread;
      if !s.Cpc(t).Idle? { OthersKeepHead(s, t); }
      Claims.StepEffect(s.claims, t, if m.1.Dequeue? then Claims.Dequeue(m.1.max) else Claims.Go);
    }
  }

  lemma OthersKeepHead<T>(s: State<T>, t: Thread)
    ensures s.Cpc(t).MoveOut? ==> TakeElement(s, t).claims == s.claims
    ensures s.Cpc(t).Count? ==> CountEmpty(s, t).claims == s.claims
    ensures s.Cpc(t).ClearEntry? ==> TakeFromIndex(s, t).claims == s.claims
    ensures s.Cpc(t).FreeBlock? ==> ReturnBlock(s, t).claims == s.claims
  {
    hide StopIndex, AfterCount, NextSegment, CountOf;
  }

  lemma KeepsJob<T>(s: State<T>, m: (Actor, Request<T>), k: nat)
    requires Inv(s) && m.0.Consumer? && InJob(s.Cpc(m.0.thread), k)
    ensures InJob(Move(s, m).Cpc(m.0.thread), k) || k in Move(s, m).done
  {
    hide Inv, ConsumerStep, InJob, JobOk, ProgressOk;
    JobAt(s, m.0.thread);
    if m.0.thread in s.claims.pc { ConsumerKeepsJob(s, m.0.thread, m.1, k); }
  }

  lemma DoneGrows<T>(s: State<T>, m: (Actor, Request<T>))
    ensures s.done <= Move(s, m).done && s.cleared <= Move(s, m).cleared && s.freed <= Move(s, m).freed
  {
    hide ProducerStep, ConsumerStep;
    match m.0 {
      case Producer => ProducerDelivers(s, m.1);
      case Consumer(t) => if t in s.claims.pc { ConsumerKeepsRing(s, t, m.1); }
    }
  }

  lemma MoveKeepsAccount<T>(s: State<T>, m: (Actor, Request<T>))
    requires Inv(s) && Accounted(s)
    ensures Accounted(Move(s, m))
  {
    hide Inv, Move, ConsumerStep, InJob;
    var e := Move(s, m);
    DoneGrows(s, m);
    forall k: nat | k < e.claims.head && k !in e.done ensures exists t :: InJob(e.Cpc(t), k) {
      if k < s.claims.head {
        var t :| InJob(s.Cpc(t), k);
        if m.0 == Consumer(t) { KeepsJob(s, m, k); } else { MoveIsLocal(s, m, t); }
        assert InJob(e.Cpc(t), k);
      } else {
        MoveGrantsHead(s, m, k);
        assert InJob(e.Cpc(m.0.thread), k);
      }
    }
  }

  lemma {:induction false} RunKeepsAccount<T>(s: State<T>, schedule: Schedule<T>)
    requires Inv(s) && Accounted(s) && NoWrapAround(s, schedule)
    ensures Accounted(Run(s, schedule))
    decreases |schedule|
  {
    hide Inv, Move, Accounted;
    if schedule != [] {
      MoveKeepsInv(s, schedule[0]);
      MoveKeepsAccount(s, schedule[0]);
      RunKeepsAccount(Move(s, schedule[0]), schedule[1..]);
    }
  }

  ghost predicate Quiescent<T>(s: State<T>) {
    s.ring.pc.Resting? && Claims.Quiescent(s.claims) && forall t: Thread :: s.Cpc(t).Idle?
  }

  /// Conservation: with no operation in progress, the elements below the head have all been
  /// delivered, those from the head to the tail are in memory, each in its own place, and the
  /// producer holds exactly the blocks whose elements are not all gone.
  lemma NothingLost<T>(s: State<T>, schedule: Schedule<T>)
    requires Init(s) && NoWrapAround(s, schedule) && Quiescent(Run(s, schedule))
    ensures var e := Run(s, schedule);
            && e.claims.optimistic - e.claims.overcommit == e.claims.head <= e.claims.tail == |Published(s, schedule)|
            && (forall k: nat | k < e.claims.head :: k in e.got && e.got[k] == Published(s, schedule)[k])
            && (forall k: nat | e.claims.head <= k < e.claims.tail ::
                  Home(e.ring.starts, k) in e.elems && e.elems[Home(e.ring.starts, k)] == Published(s, schedule)[k])
            && (forall x <- e.elems ::
                  exists k: nat :: e.claims.head <= k < e.claims.tail && x == Home(e.ring.starts, k))
            && (forall j: nat :: j in e.freed <==> (j + 1) * BLOCK_SIZE <= e.claims.head)
            && (forall b :: b in e.owned <==> exists j :: Live(e.ring.starts, e.freed, j) && e.ring.starts[j] == b)
  {
    hide Inv, Move, Run, Published, NoWrapAround;
    InitHasInv(s);
    RunKeepsInv(s, schedule);
    RunKeepsAccount(s, schedule);
    PublishedInOrder(s, schedule);
    var e := Run(s, schedule);
    Settled(e);
    assert e.values == Published(s, schedule);
    forall j: nat ensures j in e.freed <==> (j + 1) * BLOCK_SIZE <= e.claims.head { FreedWhenPassed(e, j); }
  }

  lemma Settled<T>(e: State<T>)
    requires Inv(e) && Accounted(e) && Quiescent(e)
    ensures e.claims.optimistic - e.claims.overcommit == e.claims.head <= e.claims.tail == |e.values|
    ensures forall k: nat :: k in e.done <==> k < e.claims.head
    ensures forall k: nat | k < e.claims.head :: k in e.got && e.got[k] == e.values[k]
    ensures forall k: nat | e.claims.head <= k < e.claims.tail ::
                  Home(e.ring.starts, k) in e.elems && e.elems[Home(e.ring.starts, k)] == e.values[k]
    ensures forall x <- e.elems :: exists k: nat :: e.claims.head <= k < e.claims.tail && x == Home(e.ring.starts, k)
    ensures forall b :: b in e.owned <==> exists j :: Live(e.ring.starts, e.freed, j) && e.ring.starts[j] == b
  {
    hide SlotOf, RingInv, SlotsOk, ValsOk, CountsOk, RecycleOk, JobsOk, LowOk, EntryFree, Claims.Inv, Home;
    Claims.SettledCounters(e.claims);
    ValuesFit(e.ring.pc, e.claims.tail, e.values);
    forall k: nat | k < e.claims.head ensures k in e.done { assert forall t :: !InJob(e.Cpc(t), k); }
    forall x | x in e.elems ensures exists k: nat :: e.claims.head <= k < e.claims.tail && x == Home(e.ring.starts, k) {
      var k: nat :| k < |e.values| && k !in e.got && x == Home(e.ring.starts, k);
      assert e.claims.head <= k < e.claims.tail;
    }
    forall b ensures b in e.owned <==> exists j :: Live(e.ring.starts, e.freed, j) && e.ring.starts[j] == b {
      assert b !in Pending(e.ring.pc);
    }
  }

  lemma FreedWhenPassed<T>(e: State<T>, j: nat)
    requires Inv(e) && Quiescent(e) && forall k: nat :: k in e.done <==> k < e.claims.head
    ensures j in e.freed <==> (j + 1) * BLOCK_SIZE <= e.claims.head
  {
    hide SlotOf, RingInv, SlotsOk, ValsOk, BlocksOk, CountsOk, ValuesOk, ElemsOk, GotOk, JobsOk, LowOk, EntryFree,
        Claims.Inv;
    var last := (j + 1) * BLOCK_SIZE - 1;
    assert last / BLOCK_SIZE == j;
    if last in e.done {
      assert Full(e.done, j);
      assert j in e.closer && e.Cpc(e.closer[j]).Idle?;
    } else {
      assert !Full(e.done, j);
    }
  }

  // ---- all or nothing

  /// The assertion at the end of a bulk enqueue: in the last block it ends at the new tail.
  lemma BulkEndsAtNewTail<T>(s: State<T>, q: Request<T>)
    requires Inv(s) && s.ring.pc.Construct? && ProducerStep(s, q).ring.pc.StoreTail?
    ensures s.ring.pc.k == s.claims.tail + |s.ring.pc.op.values|
  {
    hide SlotOf, SlotsOk, ValsOk, BlocksOk, CountsOk, ElemsOk, GotOk, RecycleOk, JobsOk, LowOk, EntryFree, Claims.Inv,
        HeadersOk, KeysOk, RingPcOk;
    UnfinishedDistinct(s);
    ConstructMoves(s.ring, s.claims.tail, s.claims.head, s.vals, s.owned, q);
  }

  /// Blocks of published numbers stay as they are.
  lemma MoveKeepsStarts<T>(s: State<T>, m: (Actor, Request<T>))
    requires Inv(s)
    ensures var e := Move(s, m);
            && CeilBlocks(s.claims.tail) <= CeilBlocks(e.claims.tail)
            && (forall j | 0 <= j < CeilBlocks(s.claims.tail) :: BlockAt(e.ring.starts, j) == BlockAt(s.ring.starts, j))
            && s.ring.entryAt <= e.ring.entryAt
  {
    hide Inv, ProducerStep, ConsumerStep, CeilBlocks;
    match m.0 {
      case Producer => ProducerKeepsStarts(s, m.1);
      case Consumer(t) => if t in s.claims.pc { ConsumerKeepsRing(s, t, m.1); }
    }
  }

  lemma ProducerKeepsStarts<T>(s: State<T>, q: Request<T>)
    requires Inv(s)
    ensures var e := ProducerStep(s, q);
            && CeilBlocks(s.claims.tail) <= CeilBlocks(e.claims.tail)
            && (forall j | 0 <= j < CeilBlocks(s.claims.tail) :: BlockAt(e.ring.starts, j) == BlockAt(s.ring.starts, j))
            && s.ring.entryAt <= e.ring.entryAt
  {
    hide SlotOf, SlotsOk, ValsOk, BlocksOk, CountsOk, ElemsOk, GotOk, RecycleOk, JobsOk, LowOk, EntryFree, Claims.Inv,
        HeadersOk, KeysOk, RingPcOk, CeilBlocks;
    RingFacts(s.ring, s.claims.tail);
    if s.ring.pc.StoreTail? { CeilGrows(s.claims.tail, |s.ring.pc.op.values|); }
    RingKeepsStarts(s.ring, s.claims.tail, s.claims.head, s.vals, s.owned, q, CeilBlocks(s.claims.tail));
  }

  lemma RingKeepsStarts<T>(r: Ring<T>, tail: nat, head: nat, vals: map<Entry, Block>, owned: set<Block>,
                           q: Request<T>, c0: nat)
    requires c0 <= |r.starts| && (r.pc.Revert? ==> r.pc.op.c0 == c0)
    ensures var r' := RingStep(r, tail, head, vals, owned, q);
            && (forall j | 0 <= j < c0 :: BlockAt(r'.starts, j) == BlockAt(r.starts, j))
            && r.entryAt <= r'.entryAt
  {
    hide StopIndex, BlocksNeeded, FirstBase, PreviousBase, GrownIndex, CircularLessThan, Wrap, NextSlot, PreviousSlot,
        FindStep, Fail;
  }

  lemma {:induction false} RunKeepsStarts<T>(s: State<T>, schedule: Schedule<T>)
    requires Inv(s) && NoWrapAround(s, schedule)
    ensures var e := Run(s, schedule);
            && CeilBlocks(s.claims.tail) <= CeilBlocks(e.claims.tail)
            && (forall j | 0 <= j < CeilBlocks(s.claims.tail) :: BlockAt(e.ring.starts, j) == BlockAt(s.ring.starts, j))
            && s.ring.entryAt <= e.ring.entryAt && s.cleared <= e.cleared && s.freed <= e.freed
    decreases |schedule|
  {
    hide Inv, Move, CeilBlocks;
    if schedule != [] {
      MoveKeepsInv(s, schedule[0]);
      MoveKeepsStarts(s, schedule[0]);
      DoneGrows(s, schedule[0]);
      RunKeepsStarts(Move(s, schedule[0]), schedule[1..]);
    }
  }

  /// What a producer at rest holds is determined by what has been published and what the
  /// consumers have done with it.
  lemma AtRest<T>(s: State<T>)
    requires Inv(s) && s.ring.pc.Resting?
    ensures |s.values| == s.claims.tail && |s.ring.starts| == CeilBlocks(s.claims.tail)
    ensures s.ring.tailBlock == LastBlock(s.ring.starts, |s.ring.starts|)
    ensures s.ring.headers != [] ==> s.ring.Current().at == |s.ring.starts| <= |s.ring.entryAt|
    ensures forall b :: b in s.owned <==> exists j :: Live(s.ring.starts, s.freed, j) && s.ring.starts[j] == b
    ensures forall q: nat | s.ring.Low() <= q < |s.ring.starts| && q < |s.ring.entryAt| ::
              ValOf(s.vals, s.ring.entryAt[q]) == if q in s.cleared then None else Some(s.ring.starts[q])
    ensures forall q: nat | q < s.ring.Low() :: q in s.cleared
  {
    hide SlotOf, SlotsOk, CountsOk, ElemsOk, GotOk, RecycleOk, JobsOk, EntryFree, Claims.Inv, HeadersOk, KeysOk;
    forall b ensures b in s.owned <==> exists j :: Live(s.ring.starts, s.freed, j) && s.ring.starts[j] == b {
      assert b !in Pending(s.ring.pc);
    }
  }

  /// All or nothing: if nothing has been published between two moments when the producer is at
  /// rest, whatever operations it has begun and reverted in between have left no trace.  The tail
  /// block and the number the index tail stands at are what they were; each published number has
  /// the block and the entry it had, and the entry still holds the block unless a consumer has
  /// recycled it; and the blocks held are those held before less those consumers have returned.
  lemma AllOrNothing<T>(s: State<T>, schedule: Schedule<T>)
    requires Inv(s) && s.ring.pc.Resting? && NoWrapAround(s, schedule)
    requires Run(s, schedule).ring.pc.Resting? && Published(s, schedule) == []
    ensures var e := Run(s, schedule);
            && e.claims.tail == s.claims.tail && e.values == s.values
            && e.ring.tailBlock == s.ring.tailBlock && e.ring.starts == s.ring.starts
            && (s.ring.headers != [] && e.ring.headers != [] ==> e.ring.Current().at == s.ring.Current().at)
            && s.cleared <= e.cleared && s.freed <= e.freed
            && (forall q: nat | q < |s.ring.starts| && q !in e.cleared ::
                  q < |s.ring.entryAt| && q < |e.ring.entryAt| && e.ring.entryAt[q] == s.ring.entryAt[q]
                  && ValOf(e.vals, e.ring.entryAt[q]) == ValOf(s.vals, s.ring.entryAt[q]) == Some(s.ring.starts[q]))
            && (forall b :: b in e.owned <==>
                  b in s.owned && exists j :: Live(s.ring.starts, e.freed, j) && s.ring.starts[j] == b)
  {
    hide Inv, Move, Run, Published, NoWrapAround, CeilBlocks;
    RunKeepsInv(s, schedule);
    RunKeepsStarts(s, schedule);
    PublishedInOrder(s, schedule);
    var e := Run(s, schedule);
    AtRest(s);
    AtRest(e);
    assert s.values[..s.claims.tail] == s.values && e.values[..e.claims.tail] == e.values;
    forall j | 0 <= j < |s.ring.starts| ensures e.ring.starts[j] == s.ring.starts[j] {
      assert BlockAt(e.ring.starts, j) == BlockAt(s.ring.starts, j);
    }
    StartsWithin(s);
    forall b ensures b in e.owned <==>
        b in s.owned && exists j :: Live(s.ring.starts, e.freed, j) && s.ring.starts[j] == b {
      if j :| Live(s.ring.starts, e.freed, j) && s.ring.starts[j] == b { assert Live(s.ring.starts, s.freed, j); }
    }
  }

  // ------------------------------------------------ the index in memory

  lemma NextCopied(tail: nat, i: nat, n: nat)
    requires 0 < n && PowerOfTwo(n) && n <= HALF && tail < n && i < n
    ensures Wrap((tail + i) % n + 1) % n == (tail + 1 + i) % n == Wrap(tail + 1 + i) % n
    ensures (tail + 1 + i) % n == tail <==> i + 1 == n
  {
    PowersDivideWord(n);
    WrapModulo((tail + i) % n + 1, n);
    WrapModulo(tail + 1 + i, n);
    ModuloTwice(tail + i, n);
    ModuloSum(tail + i, 1, (tail + i) % n, 1, n);
    ModuloUnique(tail, 0, tail, n);
    if i + 1 < n { ModuloDistinct(tail, tail + 1 + i, n); } else { ModuloMultiple(tail, 1, n); }
  }

  /// The array part of `new_block_index`: the old entries from the oldest on, then the new ones.
  method NewBlockIndex(prev: array<Entry>, prevTail: nat, firstNew: nat) returns (index: array<Entry>, tail: nat)
    requires 0 < prev.Length && prevTail < prev.Length && PowerOfTwo(prev.Length) && prev.Length <= HALF
    ensures fresh(index) && index[..] == GrownIndex(prev[..], prevTail, firstNew) && tail == prev.Length - 1
  {
    var n := prev.Length;
    index := new Entry[2 * n](_ => 0);
    var prevPos, i := prevTail, 0;
    ModuloUnique(prevTail, 0, prevTail, n);
    var again := true;
    while again
      invariant 0 <= i <= n && prevPos == (prevTail + i) % n && (again <==> i < n)
      invariant forall k: nat | k < i :: index[k] == prev[Wrap(prevTail + 1 + k) % n]
      decreases n - i
    {
      NextCopied(prevTail, i, n);
      prevPos := Wrap(prevPos + 1) % n;
      index[i] := prev[prevPos];
      i := i + 1;
      again := prevPos != prevTail;
    }
    i := 0;
    while i != n
      invariant 0 <= i <= n
      invariant forall k: nat | k < n :: index[k] == prev[Wrap(prevTail + 1 + k) % n]
      invariant forall k: nat | n <= k < n + i :: index[k] == firstNew + (k - n)
    {
      index[n + i] := firstNew + i;
      i := i + 1;
    }
    tail := n - 1;
  }

  // ---------------------------------------------------------- destruction

  /// Looking up an undequeued index when no operation is in progress.
  lemma LookupAtRest<T>(e: State<T>, k: nat)
    requires Inv(e) && Quiescent(e) && e.claims.head <= k < e.claims.tail && k !in e.done
    ensures k / BLOCK_SIZE < |e.ring.starts| <= |e.ring.entryAt|
    ensures ValOf(e.vals, Lookup(e.ring, Wrap(k))) == Some(e.ring.starts[k / BLOCK_SIZE])
  {
    hide SlotOf, IndexAt, HeadersOk, KeysOk, SlotsOk, BlocksOk, CountsOk, ValuesOk, ElemsOk, GotOk, JobsOk, EntryFree,
        Claims.Inv, Lookup;
    var r, j := e.ring, k / BLOCK_SIZE;
    UncountedIsLive(e.done, e.closer, e.cleared, e.freed, e.cpc, k);
    RingFacts(r, e.claims.tail);
    BelowCeil(k, e.claims.tail);
    LowIsPublished(e);
    LookupInBlock(r, e.claims.tail, k, |r.starts| - 1);
    assert !Reverted(r.pc, j);
  }

  lemma LookupInBlock<T>(r: Ring<T>, tail: nat, k: nat, at: nat)
    requires RingInv(r, tail) && r.headers != [] && r.Current().at == at + 1 && r.Current().top == |r.entryAt|
    requires r.Low() <= k / BLOCK_SIZE < |r.entryAt| && r.Low() <= at < |r.entryAt|
    ensures Lookup(r, Wrap(k)) == r.entryAt[k / BLOCK_SIZE]
  {
    hide RingPcOk, HeadersOk;
    CurrentHeader(r.headers, r.entryAt);
    var h := r.Current();
    KeyAt(r, tail, h, at);
    PowersDivideWord(h.capacity);
    LookupIsExact(k, k / BLOCK_SIZE, at, h.origin, h.tail, h.capacity);
    assert IndexAt(h, k / BLOCK_SIZE) == r.entryAt[k / BLOCK_SIZE];
  }

  /// The blocks the destructor has left behind when it has got to the index.
  function Passed(starts: seq<Block>, head: nat, index: nat): seq<Block> {
    if head < index && (index - 1) / BLOCK_SIZE <= |starts| && head / BLOCK_SIZE <= (index - 1) / BLOCK_SIZE
    then starts[head / BLOCK_SIZE..(index - 1) / BLOCK_SIZE] else []
  }

  lemma PassedStep(starts: seq<Block>, head: nat, index: nat)
    requires head <= index && index / BLOCK_SIZE < |starts|
    ensures Passed(starts, head, head) == []
    ensures Passed(starts, head, index + 1) == Passed(starts, head, index) +
              (if index > head && index % BLOCK_SIZE == 0 then [starts[(index - 1) / BLOCK_SIZE]] else [])
  {
    NextBlock(head, index);
  }

  lemma PassedAll(starts: seq<Block>, head: nat, tail: nat)
    requires head <= tail && |starts| == CeilBlocks(tail)
    ensures Passed(starts, head, head) == []
    ensures head / BLOCK_SIZE <= |starts|
    ensures starts[head / BLOCK_SIZE..] ==
              Passed(starts, head, tail) +
                  (if head < tail || tail % BLOCK_SIZE != 0 then [starts[|starts| - 1]] else [])
  {
    BlocksLeft(head, tail);
  }

  /// The destructor: destroys exactly the elements from the head to the tail, each once, in order,
  /// and returns the blocks still held, each once.
  method DestroyAll<T>(e: State<T>) returns (destroyed: seq<(Block, nat)>, returned: seq<Block>)
    requires Inv(e) && Accounted(e) && Quiescent(e)
    ensures destroyed == Homes(e.ring.starts, e.claims.head, e.claims.tail)
    ensures e.claims.head / BLOCK_SIZE <= |e.ring.starts| && returned == e.ring.starts[e.claims.head / BLOCK_SIZE..]
  {
    hide SlotOf, Inv, Accounted, Quiescent, Lookup, Home, Homes, CeilBlocks, ValOf, Passed;
    ghost var head, tail, starts := e.claims.head, e.claims.tail, e.ring.starts;
    Settled(e);
    ProducerRests(e);
    AtRest(e);
    HomesEnds(starts, head, head);
    BlocksLeft(head, tail);
    WrapModulo(tail, BLOCK_SIZE);
    PassedAll(starts, head, tail);
    destroyed, returned := [], [];
    var index := e.claims.head;
    var block: Option<Block> := None;
    var forceFreeLastBlock := e.claims.head != e.claims.tail;
    while index != e.claims.tail
      invariant head <= index <= tail && destroyed == Homes(starts, head, index)
      invariant block.None? <==> index == head
      invariant index > head ==> (index - 1) / BLOCK_SIZE < |starts| && block == Some(starts[(index - 1) / BLOCK_SIZE])
      invariant head / BLOCK_SIZE <= |starts|
      invariant returned == Passed(starts, head, index)
    {
      LookupAtRest(e, index);
      NextBlock(head, index);
      WrapModulo(index, BLOCK_SIZE);
      PassedStep(starts, head, index);
      if Wrap(index) % BLOCK_SIZE == 0 || block == None {
        if block.Some? { returned := returned + [block.value]; }
        block := ValOf(e.vals, Lookup(e.ring, Wrap(index)));
      }
      HomeIs(starts, index, block.value);
      HomesEnds(starts, head, index);
      destroyed := destroyed + [(block.value, Wrap(index) % BLOCK_SIZE)];
      index := index + 1;
    }
    if e.ring.tailBlock.Some? && (forceFreeLastBlock || Wrap(e.claims.tail) % BLOCK_SIZE != 0) {
      returned := returned + [e.ring.tailBlock.value];
    }
  }

  lemma ProducerRests<T>(e: State<T>)
    requires Quiescent(e)
    ensures e.ring.pc.Resting?
  {}

  lemma HomeIs(starts: seq<Block>, k: nat, b: Block)
    requires k / BLOCK_SIZE < |starts| && b == starts[k / BLOCK_SIZE]
    ensures Home(starts, k) == (b, k % BLOCK_SIZE)
  {}

  lemma NextBlock(head: nat, k: nat)
    requires head <= k
    ensures k > head ==> head / BLOCK_SIZE <= (k - 1) / BLOCK_SIZE
    ensures k > 0 ==> k / BLOCK_SIZE == if k % BLOCK_SIZE == 0 then (k - 1) / BLOCK_SIZE + 1 else (k - 1) / BLOCK_SIZE
  {}

  /// Which blocks are left when no operation is in progress.
  lemma BlocksLeft(head: nat, tail: nat)
    requires head <= tail
    ensures head / BLOCK_SIZE <= CeilBlocks(tail)
    ensures head < tail ==>
              (tail - 1) / BLOCK_SIZE == CeilBlocks(tail) - 1 && head / BLOCK_SIZE <= (tail - 1) / BLOCK_SIZE
    ensures head == tail ==> head / BLOCK_SIZE == if tail % BLOCK_SIZE == 0 then CeilBlocks(tail)
              else CeilBlocks(tail) - 1
    ensures tail % BLOCK_SIZE != 0 ==> CeilBlocks(tail) > 0
  {}

  lemma ElementsLeft<T>(e: State<T>, x: (Block, nat))
    requires Inv(e) && Accounted(e) && Quiescent(e)
    ensures x in Homes(e.ring.starts, e.claims.head, e.claims.tail) <==> x in e.elems
  {
    hide Inv, Accounted, Quiescent, Home;
    Settled(e);
    var places := Homes(e.ring.starts, e.claims.head, e.claims.tail);
    if x in e.elems {
      var k: nat :| e.claims.head <= k < e.claims.tail && x == Home(e.ring.starts, k);
      assert places[k - e.claims.head] == x;
    }
  }

  /// What is destroyed is what is in memory, and what is returned is what the producer holds, each once.
  lemma DestroyedAreLeft<T>(e: State<T>, x: (Block, nat), b: Block)
    requires Inv(e) && Accounted(e) && Quiescent(e)
    ensures var places, blocks := Homes(e.ring.starts, e.claims.head, e.claims.tail), e.claims.head / BLOCK_SIZE;
            && e.claims.head <= e.claims.tail && blocks <= |e.ring.starts|
            && (x in places <==> x in e.elems)
            && (b in e.ring.starts[blocks..] <==> b in e.owned)
            && (forall i, j | blocks <= i < j < |e.ring.starts| :: e.ring.starts[i] != e.ring.starts[j])
  {
    hide Inv, Accounted, Quiescent, Home, Homes;
    Settled(e);
    ElementsLeft(e, x);
    ProducerRests(e);
    AtRest(e);
    BlocksLeft(e.claims.head, e.claims.tail);
    var starts, n := e.ring.starts, e.claims.head / BLOCK_SIZE;
    forall j: nat | j < |starts| ensures Live(starts, e.freed, j) <==> n <= j {
      FreedWhenPassed(e, j);
    }
    LiveApart(e);
    if b in starts[n..] {
      var i :| 0 <= i < |starts[n..]| && starts[n..][i] == b;
      assert Live(starts, e.freed, n + i);
    }
    if b in e.owned {
      var j :| Live(starts, e.freed, j) && starts[j] == b;
      assert starts[n..][j - n] == b;
    }
  }

  lemma LiveApart<T>(e: State<T>)
    requires Inv(e)
    ensures forall i, j | Live(e.ring.starts, e.freed, i) && Live(e.ring.starts, e.freed, j)
              && i != j :: e.ring.starts[i] != e.ring.starts[j]
  {
    hide RingInv, SlotsOk, ValsOk, CountsOk, ValuesOk, ElemsOk, GotOk, RecycleOk, JobsOk, LowOk, EntryFree, Claims.Inv;
  }
}
