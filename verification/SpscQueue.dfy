/// The bounded single-producer, single-consumer ring with cached indices (SPSCQueue.h), one step
/// for each access to an index the other side writes.
///
/// `pushed`, `popped` and the absolute counters `write`, `read`, `readSeen` and `writeSeen` are
/// history variables: the index variables are the counters modulo the number of slots.
module SpscQueue {
  import Index
  import opened Wrappers

  /// The number of slots: one more than the queue can hold.
  type Slots = n: nat | n >= 2 witness 2

  datatype ProducerPC<T> =
    | Resting
    | Reload(value: T, try_: bool)
    | Construct(value: T)
    | StoreWrite

  datatype ConsumerPC =
    | Idle
    | ReloadWrite
    | Holding              // front() has returned a pointer
    | Destroy
    | StoreRead

  datatype State<T> = State(
    slotCount: Slots,
    slots: seq<Option<T>>,
    writeIdx: nat,
    readIdxCache: nat,
    readIdx: nat,
    writeIdxCache: nat,
    producer: ProducerPC<T>,
    consumer: ConsumerPC,
    // history
    write: nat,
    readSeen: nat,
    read: nat,
    writeSeen: nat,
    pushed: seq<T>,
    popped: seq<T>)

  datatype Request<T> = Emplace(value: T) | TryEmplace(value: T) | Front | Pop | Go

  // ---------------------------------------------------------------- steps

  function Next(i: nat, n: Slots): nat {
    if i + 1 == n then 0 else i + 1
  }

  function ProducerStep<T>(s: State<T>, q: Request<T>): State<T> {
    var n := s.slotCount;
    match s.producer
    case Resting =>
      if q.Emplace? || q.TryEmplace? then
        (if Next(s.writeIdx, n) == s.readIdxCache then s.(producer := Reload(q.value, q.TryEmplace?))
         else s.(producer := Construct(q.value)))
      else s
    case Reload(v, try_) =>
      var s1 := s.(readIdxCache := s.readIdx, readSeen := s.read);
      if Next(s.writeIdx, n) != s.readIdx then s1.(producer := Construct(v))
      else if try_ then s1.(producer := Resting)     // returns false
      else s1
    case Construct(v) =>
      if s.writeIdx < |s.slots| then
        s.(slots := s.slots[s.writeIdx := Some(v)], pushed := s.pushed + [v], producer := StoreWrite)
      else s
    case StoreWrite => s.(writeIdx := Next(s.writeIdx, n), write := s.write + 1, producer := Resting)
  }

  /// `pop` is only called after `front` has returned a pointer.
  function ConsumerStep<T>(s: State<T>, q: Request<T>): State<T> {
    match s.consumer
    case Idle =>
      if q.Front? then s.(consumer := if s.readIdx == s.writeIdxCache then ReloadWrite else Holding) else s
    case ReloadWrite =>
      s.(writeIdxCache := s.writeIdx, writeSeen := s.write,
         consumer := if s.writeIdx == s.readIdx then Idle /* returns null */ else Holding)
    case Holding => if q.Pop? then s.(consumer := Destroy) else s
    case Destroy =>
      if s.readIdx < |s.slots| && s.slots[s.readIdx].Some? then
        s.(slots := s.slots[s.readIdx := None], popped := s.popped + [s.slots[s.readIdx].value], consumer := StoreRead)
      else s
    case StoreRead => s.(readIdx := Next(s.readIdx, s.slotCount), read := s.read + 1, consumer := Idle)
  }

  // ------------------------------------------------------------ invariant

  function Slot(k: nat, n: Slots): nat {
    k % n
  }

  /// The counter of the oldest element still constructed.
  function Oldest<T>(s: State<T>): nat {
    if s.consumer.StoreRead? then s.read + 1 else s.read
  }

  ghost predicate CountersOk<T>(s: State<T>) {
    && s.readSeen <= s.read <= s.writeSeen <= s.write <= s.readSeen + s.slotCount - 1
    && s.writeIdx == Slot(s.write, s.slotCount) && s.readIdx == Slot(s.read, s.slotCount)
    && s.readIdxCache == Slot(s.readSeen, s.slotCount) && s.writeIdxCache == Slot(s.writeSeen, s.slotCount)
    && (s.producer.Construct? || s.producer.StoreWrite? ==> s.write < s.readSeen + s.slotCount - 1)
    && (s.consumer.Holding? || s.consumer.Destroy? || s.consumer.StoreRead? ==> s.read < s.writeSeen)
    && |s.slots| == s.slotCount
  }

  /// The slots hold exactly the elements pushed and not popped.
  ghost predicate SlotsOk<T>(slots: seq<Option<T>>, n: Slots, lo: nat, pushed: seq<T>) {
    && |slots| == n && lo <= |pushed| <= lo + n
    && (forall k: nat | lo <= k < |pushed| :: slots[Slot(k, n)] == Some(pushed[k]))
    && (forall k: nat | |pushed| <= k < lo + n :: slots[Slot(k, n)] == None)
  }

  ghost predicate Inv<T>(s: State<T>) {
    && CountersOk(s)
    && |s.pushed| == (if s.producer.StoreWrite? then s.write + 1 else s.write)
    && SlotsOk(s.slots, s.slotCount, Oldest(s), s.pushed)
    && s.popped == s.pushed[..Oldest(s)]
  }

  lemma NextSlot(k: nat, n: Slots)
    ensures Slot(k, n) < n && Next(Slot(k, n), n) == Slot(k + 1, n)
  {
    var q, r := k / n, k % n;
    assert k == q * n + r;
    if r + 1 == n {
      assert k + 1 == (q + 1) * n + 0;
      Index.ModuloUnique(k + 1, q + 1, 0, n);
    } else {
      Index.ModuloUnique(k + 1, q, r + 1, n);
    }
  }

  /// Counters at most n apart share a slot only if they are equal or exactly n apart.
  lemma SharedSlot(a: nat, b: nat, n: Slots)
    requires a <= b <= a + n
    ensures Slot(a, n) == Slot(b, n) <==> b == a || b == a + n
  {
    if b == a + n { Index.ModuloMultiple(a, 1, n); }
    else if a < b { Index.ModuloDistinct(a, b, n); }
  }

  lemma Constructed<T>(slots: seq<Option<T>>, n: Slots, lo: nat, pushed: seq<T>, v: T)
    requires SlotsOk(slots, n, lo, pushed) && |pushed| < lo + n
    ensures SlotsOk(slots[Slot(|pushed|, n) := Some(v)], n, lo, pushed + [v])
  {
    hide Slot;
    var c := |pushed|;
    NextSlot(c, n);
    forall k: nat | lo <= k < lo + n && k != c ensures Slot(k, n) != Slot(c, n) && Slot(k, n) < n {
      NextSlot(k, n);
      if k < c { SharedSlot(k, c, n); } else { SharedSlot(c, k, n); }
    }
  }

  lemma Destroyed<T>(slots: seq<Option<T>>, n: Slots, lo: nat, pushed: seq<T>)
    requires SlotsOk(slots, n, lo, pushed) && lo < |pushed|
    ensures SlotsOk(slots[Slot(lo, n) := None], n, lo + 1, pushed)
  {
    hide Slot;
    NextSlot(lo, n);
    SharedSlot(lo, lo + n, n);
    forall k: nat | lo < k < lo + n ensures Slot(k, n) != Slot(lo, n) && Slot(k, n) < n {
      NextSlot(k, n);
      SharedSlot(lo, k, n);
    }
  }

  lemma ProducerCounters<T>(s: State<T>, q: Request<T>)
    requires CountersOk(s)
    ensures CountersOk(ProducerStep(s, q))
  {
    hide Slot, Next;
    NextSlot(s.write, s.slotCount);
    SharedSlot(s.readSeen, s.write + 1, s.slotCount);
    SharedSlot(s.read, s.write + 1, s.slotCount);
  }

  lemma ProducerKeepsInv<T>(s: State<T>, q: Request<T>)
    requires Inv(s)
    ensures Inv(ProducerStep(s, q))
  {
    hide Slot, SlotsOk;
    ProducerCounters(s, q);
    NextSlot(s.write, s.slotCount);
    if s.producer.Construct? {
      assert s.popped == (s.pushed + [s.producer.value])[..Oldest(s)] by {
        SlotsBounds(s.slots, s.slotCount, Oldest(s), s.pushed);
      }
      Constructed(s.slots, s.slotCount, Oldest(s), s.pushed, s.producer.value);
    }
  }

  lemma SlotsBounds<T>(slots: seq<Option<T>>, n: Slots, lo: nat, pushed: seq<T>)
    requires SlotsOk(slots, n, lo, pushed)
    ensures lo <= |pushed|
    ensures lo < |pushed| ==> slots[Slot(lo, n)] == Some(pushed[lo]) && pushed[..lo] + [pushed[lo]] == pushed[..lo + 1]
  {}

  lemma ConsumerCounters<T>(s: State<T>, q: Request<T>)
    requires CountersOk(s)
    ensures CountersOk(ConsumerStep(s, q))
  {
    hide Slot, Next;
    NextSlot(s.read, s.slotCount);
    SharedSlot(s.read, s.writeSeen, s.slotCount);
    SharedSlot(s.read, s.write, s.slotCount);
  }

  lemma ConsumerKeepsInv<T>(s: State<T>, q: Request<T>)
    requires Inv(s)
    ensures Inv(ConsumerStep(s, q))
  {
    hide Slot, SlotsOk;
    ConsumerCounters(s, q);
    NextSlot(s.read, s.slotCount);
    SlotsBounds(s.slots, s.slotCount, Oldest(s), s.pushed);
    if s.consumer.Destroy? { Destroyed(s.slots, s.slotCount, s.read, s.pushed); }
  }

  // ------------------------------------------------------------- theorems

  ghost predicate Init<T>(s: State<T>) {
    && s.writeIdx == s.readIdxCache == s.readIdx == s.writeIdxCache == 0
    && s.write == s.readSeen == s.read == s.writeSeen == 0
    && s.producer == Resting && s.consumer == Idle && s.pushed == s.popped == []
    && |s.slots| == s.slotCount && (forall i | 0 <= i < |s.slots| :: s.slots[i] == None)
  }

  datatype Side = Producer | Consumer

  type Schedule<T> = seq<(Side, Request<T>)>

  function Move<T>(s: State<T>, m: (Side, Request<T>)): State<T> {
    if m.0.Producer? then ProducerStep(s, m.1) else ConsumerStep(s, m.1)
  }

  function Run<T>(s: State<T>, schedule: Schedule<T>): State<T>
    decreases |schedule|
  {
    if schedule == [] then s else Run(Move(s, schedule[0]), schedule[1..])
  }

  lemma InitHasInv<T>(s: State<T>)
    requires Init(s)
    ensures Inv(s)
  {
    forall k: nat | 0 <= k < s.slotCount ensures Slot(k, s.slotCount) < s.slotCount { NextSlot(k, s.slotCount); }
  }

  lemma {:induction false} RunKeepsInv<T>(s: State<T>, schedule: Schedule<T>)
    requires Inv(s)
    ensures Inv(Run(s, schedule))
    decreases |schedule|
  {
    hide Inv, ProducerStep, ConsumerStep;
    if schedule != [] {
      if schedule[0].0.Producer? { ProducerKeepsInv(s, schedule[0].1); } else { ConsumerKeepsInv(s, schedule[0].1); }
      RunKeepsInv(Move(s, schedule[0]), schedule[1..]);
    }
  }

  /// However stale the caches are, the counters stay in order and the ring is never overfilled.
  lemma CachesStayInOrder<T>(s: State<T>, schedule: Schedule<T>)
    requires Init(s)
    ensures var e := Run(s, schedule); var n := s.slotCount;
            && e.readSeen <= e.read <= e.writeSeen <= e.write <= e.readSeen + n - 1
            && e.slotCount == n
            && e.readIdxCache == e.readSeen % n && e.readIdx == e.read % n
            && e.writeIdxCache == e.writeSeen % n && e.writeIdx == e.write % n
  {
    InitHasInv(s);
    RunKeepsInv(s, schedule);
    SlotCountStays(s, schedule);
  }

  lemma {:induction false} SlotCountStays<T>(s: State<T>, schedule: Schedule<T>)
    ensures Run(s, schedule).slotCount == s.slotCount
    decreases |schedule|
  {
    if schedule != [] { SlotCountStays(Move(s, schedule[0]), schedule[1..]); }
  }

  // ---- refinement of a bounded queue

  /// What has been published and not popped.
  function Contents<T>(s: State<T>): seq<T> {
    if s.read <= s.write <= |s.pushed| then s.pushed[s.read..s.write] else []
  }

  /// What a move does to the queue as its clients see it.
  datatype Effect<T> = Nothing | Append(value: T) | Remove | RefuseFull | RefuseEmpty

  function EffectOf<T>(s: State<T>, m: (Side, Request<T>)): Effect<T> {
    if m.0.Producer? then
      (if s.producer.StoreWrite? && |s.pushed| > 0 then Append(s.pushed[|s.pushed| - 1])
       else if s.producer.Reload? && Move(s, m).producer.Resting? then RefuseFull
       else Nothing)
    else
      (if s.consumer.StoreRead? then Remove
       else if s.consumer.ReloadWrite? && Move(s, m).consumer.Idle? then RefuseEmpty
       else Nothing)
  }

  /// What a bounded queue allows a move with that effect to do to its contents.
  predicate Allowed<T(==)>(before: seq<T>, after: seq<T>, effect: Effect<T>, room: nat) {
    match effect
    case Nothing => after == before
    case Append(v) => |before| < room && after == before + [v]
    case Remove => before != [] && after == before[1..]
    case RefuseFull => |before| == room && after == before
    case RefuseEmpty => before == [] && after == before
  }

  /// Every interleaving is a run of a queue of at most slotCount - 1 elements: elements are added
  /// at the end and removed from the front, try_emplace is refused only at a moment when the queue
  /// is full, and front only at a moment when it is empty.
  lemma RefinesBoundedQueue<T>(s: State<T>, schedule: Schedule<T>, m: (Side, Request<T>))
    requires Init(s)
    ensures var e := Run(s, schedule);
            |Contents(e)| <= s.slotCount - 1
                && Allowed(Contents(e), Contents(Move(e, m)), EffectOf(e, m), s.slotCount - 1)
  {
    hide Inv, Init, EffectOf, Contents, Allowed, Move;
    InitHasInv(s);
    RunKeepsInv(s, schedule);
    SlotCountStays(s, schedule);
    if m.0.Producer? { ProducerRefines(Run(s, schedule), m); } else { ConsumerRefines(Run(s, schedule), m); }
  }

  lemma ProducerRefines<T>(e: State<T>, m: (Side, Request<T>))
    requires Inv(e) && m.0.Producer?
    ensures |Contents(e)| <= e.slotCount - 1
              && Allowed(Contents(e), Contents(Move(e, m)), EffectOf(e, m), e.slotCount - 1)
  {
    hide Slot, SlotsOk;
    NextSlot(e.write, e.slotCount);
    SharedSlot(e.read, e.write + 1, e.slotCount);
  }

  lemma ConsumerRefines<T>(e: State<T>, m: (Side, Request<T>))
    requires Inv(e) && m.0.Consumer?
    ensures |Contents(e)| <= e.slotCount - 1
              && Allowed(Contents(e), Contents(Move(e, m)), EffectOf(e, m), e.slotCount - 1)
  {
    hide Slot, SlotsOk;
    SharedSlot(e.read, e.write, e.slotCount);
  }

  /// While the consumer holds the pointer from front, it points to the first element.
  lemma FrontIsFirst<T>(s: State<T>, schedule: Schedule<T>)
    requires Init(s) && Run(s, schedule).consumer.Holding?
    ensures var e := Run(s, schedule);
            e.readIdx < |e.slots| && Contents(e) != [] && e.slots[e.readIdx] == Some(Contents(e)[0])
  {
    hide Slot;
    InitHasInv(s);
    RunKeepsInv(s, schedule);
    NextSlot(Run(s, schedule).read, Run(s, schedule).slotCount);
  }

  /// No live slot is overwritten and no dead one destroyed.
  lemma SlotLifetime<T>(s: State<T>, schedule: Schedule<T>)
    requires Init(s)
    ensures var e := Run(s, schedule);
            && e.writeIdx < |e.slots| && e.readIdx < |e.slots|
            && (e.producer.Construct? ==> e.slots[e.writeIdx] == None)
            && (e.consumer.Destroy? ==> e.read < |e.pushed| && e.slots[e.readIdx] == Some(e.pushed[e.read]))
  {
    hide Slot;
    InitHasInv(s);
    RunKeepsInv(s, schedule);
    NextSlot(Run(s, schedule).read, Run(s, schedule).slotCount);
    NextSlot(Run(s, schedule).write, Run(s, schedule).slotCount);
  }

  /// First in, first out: what has been popped is a prefix of what has been pushed, and what has
  /// been pushed are the values of the calls that were not refused, in order.
  lemma PoppedInOrder<T>(s: State<T>, schedule: Schedule<T>)
    requires Init(s)
    ensures var e := Run(s, schedule); e.popped <= e.pushed && |e.pushed| - |e.popped| <= s.slotCount - 1
    ensures Run(s, schedule).pushed == Constructions(s, schedule)
  {
    hide Slot;
    InitHasInv(s);
    RunKeepsInv(s, schedule);
    SlotCountStays(s, schedule);
    PushedInOrder(s, schedule);
  }

  /// The values of the calls that found room, in order.
  function Constructions<T>(s: State<T>, schedule: Schedule<T>): seq<T>
    decreases |schedule|
  {
    if schedule == [] then []
    else (if schedule[0].0.Producer? && s.producer.Construct? then [s.producer.value] else [])
         + Constructions(Move(s, schedule[0]), schedule[1..])
  }

  lemma PushStep<T>(s: State<T>, m: (Side, Request<T>))
    requires Inv(s)
    ensures Inv(Move(s, m))
    ensures Move(s, m).pushed == s.pushed + (if m.0.Producer? && s.producer.Construct? then [s.producer.value] else [])
  {
    hide Slot, SlotsOk;
    NextSlot(s.write, s.slotCount);
    if m.0.Producer? { ProducerKeepsInv(s, m.1); } else { ConsumerKeepsInv(s, m.1); }
  }

  lemma {:induction false} PushedInOrder<T>(s: State<T>, schedule: Schedule<T>)
    requires Inv(s)
    ensures Run(s, schedule).pushed == s.pushed + Constructions(s, schedule)
    decreases |schedule|
  {
    hide Inv, Move;
    if schedule != [] {
      PushStep(s, schedule[0]);
      PushedInOrder(Move(s, schedule[0]), schedule[1..]);
    }
  }

  /// What `size` computes when both indices are read at one moment.
  function Size<T>(s: State<T>): int {
    var diff := s.writeIdx - s.readIdx;
    if diff < 0 then diff + s.slotCount else diff
  }

  lemma SizeIsExact<T>(s: State<T>)
    requires Inv(s)
    ensures Size(s) == |Contents(s)|
  {
    hide Slot, SlotsOk;
    SlotDifference(s.read, s.write, s.slotCount);
  }

  lemma SlotDifference(a: nat, b: nat, n: Slots)
    requires a <= b < a + n
    ensures Slot(b, n) - Slot(a, n) == if Slot(b, n) < Slot(a, n) then b - a - n else b - a
  {
    var q, r := a / n, a % n;
    assert a == q * n + r;
    if r + (b - a) < n {
      Index.ModuloUnique(b, q, r + (b - a), n);
    } else {
      assert b == (q + 1) * n + (r + (b - a) - n);
      Index.ModuloUnique(b, q + 1, r + (b - a) - n, n);
    }
  }

  // ---- construction and destruction

  const SIZE_MAX: nat := 0xFFFF_FFFF_FFFF_FFFF

  /// `capacity_` after the constructor, with an allocator that returns `extra` more than asked for.
  function SlotsFor(capacity: nat, padding: nat, extra: nat): nat
    requires padding <= 64
  {
    var wanted := (if capacity < 1 then 1 else capacity) + 1;
    (if wanted > SIZE_MAX - 2 * padding then SIZE_MAX - 2 * padding else wanted) + extra
  }

  /// There is room for what was asked for, and for at least one element.
  lemma RoomAsAsked(capacity: nat, padding: nat, extra: nat)
    requires 1 <= padding <= 64 && capacity < SIZE_MAX - 2 * padding
    ensures SlotsFor(capacity, padding, extra) >= 2 && capacity <= SlotsFor(capacity, padding, extra) - 1
  {}

  /// The destructor: while (front()) pop();
  method Drain<T>(slots: array<Option<T>>, n: Slots, readIdx0: nat, writeIdx: nat, writeIdxCache0: nat,
                  ghost read: nat, ghost writeSeen: nat, ghost pushed: seq<T>) returns (destroyed: seq<T>)
    requires slots.Length == n && SlotsOk(slots[..], n, read, pushed) && |pushed| < read + n
    requires read <= writeSeen <= |pushed|
    requires readIdx0 == Slot(read, n) && writeIdx == Slot(|pushed|, n) && writeIdxCache0 == Slot(writeSeen, n)
    modifies slots
    ensures destroyed == pushed[read..]
    ensures forall i | 0 <= i < slots.Length :: slots[i] == None
  {
    hide Slot;
    destroyed := [];
    var readIdx, writeIdxCache := readIdx0, writeIdxCache0;
    ghost var r, seen := read, writeSeen;
    SharedSlot(r, seen, n);
    SharedSlot(r, |pushed|, n);
    if readIdx == writeIdxCache { writeIdxCache := writeIdx; seen := |pushed|; }
    while writeIdxCache != readIdx
      invariant read <= r <= seen <= |pushed| < r + n
      invariant readIdx == Slot(r, n) && writeIdxCache == Slot(seen, n)
      invariant readIdx == writeIdxCache ==> r == |pushed|
      invariant SlotsOk(slots[..], n, r, pushed)
      invariant destroyed == pushed[read..r]
      decreases |pushed| - r
    {
      // pop
      SharedSlot(r, seen, n);
      NextSlot(r, n);
      Destroyed(slots[..], n, r, pushed);
      destroyed := destroyed + [slots[readIdx].value];
      slots[readIdx] := None;
      readIdx := if readIdx + 1 == n then 0 else readIdx + 1;
      r := r + 1;
      // front
      SharedSlot(r, seen, n);
      SharedSlot(r, |pushed|, n);
      if readIdx == writeIdxCache { writeIdxCache := writeIdx; seen := |pushed|; }
    }
    AllEmpty(slots[..], n, r, pushed);
  }

  lemma AllEmpty<T>(slots: seq<Option<T>>, n: Slots, lo: nat, pushed: seq<T>)
    requires SlotsOk(slots, n, lo, pushed) && lo == |pushed|
    ensures forall i | 0 <= i < n :: slots[i] == None
  {
    hide Slot;
    forall i: nat | i < n ensures slots[i] == None {
      var k := SlotAfter(lo, i, n);
      assert slots[Slot(k, n)] == None;
    }
  }

  /// Every slot is that of one of the n counters from `lo` on.
  lemma SlotAfter(lo: nat, i: nat, n: Slots) returns (k: nat)
    requires i < n
    ensures lo <= k < lo + n && Slot(k, n) == i
  {
    var q, r := lo / n, lo % n;
    assert lo == q * n + r;
    if r <= i {
      k := lo + (i - r);
      Index.ModuloUnique(k, q, i, n);
    } else {
      k := lo + (i + n - r);
      assert k == (q + 1) * n + i;
      Index.ModuloUnique(k, q + 1, i, n);
    }
  }
}
