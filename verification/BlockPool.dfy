/// Where the sub-queues of a queue get their blocks and where they return them (concurrentqueue.h:
/// `requisition_block`, the initial block pool, `add_block_to_free_list`, `add_blocks_to_free_list`):
/// any number of producers and consumers share one pool and one free list, one atomic operation per
/// step.
///
/// `place` is a history variable.  A block that is destroyed keeps its number for good.
module BlockPool {
  import FreeList
  import Claims
  import E = ExplicitProducer
  import I = ImplicitProducer
  import opened Index
  import opened SubQueue
  import opened Wrappers

  datatype Sub<T> = Explicit(e: E.State<T>) | Implicit(i: I.State<T>)

  /// Where a thread is in the functions of the pool.
  datatype PC =
    | Outside
    | LoadIndex
    | TakeIndex
    | Getting                     // in try_get
    | Create
    | Holding(block: Block)       // requisition_block returns a block
    | Refused                     // requisition_block returns null
    | Returning(block: Block)     // calls add_block_to_free_list
    | Adding                      // in add

  /// History: where a block is.
  datatype Place = Unused | Free | Held(thread: Thread) | In(sub: nat) | Destroyed

  datatype State<T> = State(
    list: FreeList.State,
    index: nat,                   // initialBlockPoolIndex
    size: nat,                    // initialBlockPoolSize: the blocks below are the initial pool
    created: nat,                 // the blocks below exist
    recycle: bool,                // RECYCLE_ALLOCATED_BLOCKS
    pc: map<Thread, PC>,
    subs: seq<Sub<T>>,
    place: map<Block, Place>)
  {
    function Goto(t: Thread, p: PC): State<T> { this.(pc := pc[t := p]) }
    function Pc(t: Thread): PC { if t in pc then pc[t] else Outside }
    function Place(b: Block): Place { if b in place then place[b] else Unused }
    function Put(b: Block, x: Place): State<T> { this.(place := place[b := x]) }
  }

  /// What a thread working on a sub-queue asks for there.
  datatype Ask<T> = Enqueue(values: seq<T>, bulk: bool) | Dequeue(max: nat) | Granted(block: Block) | Denied | Go

  datatype Request<T> =
    | Requisition
    | Work(sub: nat, producing: bool, ask: Ask<T>)
    | Allocated
    | NotAllocated
    | Next

  // ------------------------------------------------ steps on a sub-queue

  function ToExplicit<T>(a: Ask<T>): E.Request<T> {
    match a
    case Enqueue(values, bulk) => E.Enqueue(values, bulk)
    case Dequeue(max) => E.Dequeue(max)
    case Granted(b) => E.Granted(b)
    case Denied => E.Denied
    case Go => E.Go
  }

  function ToImplicit<T>(a: Ask<T>): I.Request<T> {
    match a
    case Enqueue(values, bulk) => I.Enqueue(values, bulk)
    case Dequeue(max) => I.Dequeue(max)
    case Granted(b) => I.Granted(b)
    case Denied => I.Denied
    case Go => I.Go
  }

  /// A step of the sub-queue's producer, or of the consumer `t`.
  function SubStep<T>(sub: Sub<T>, t: Thread, producing: bool, a: Ask<T>): Sub<T> {
    match sub
    case Explicit(e) => Explicit(E.Move(e, (if producing then E.Producer else E.Consumer(t), ToExplicit(a))))
    case Implicit(i) => Implicit(I.Move(i, (if producing then I.Producer else I.Consumer(t), ToImplicit(a))))
  }

  function Blocks<T>(sub: Sub<T>): set<Block> {
    match sub
    case Explicit(e) => ListedBlocks(e.ring.starts)
    case Implicit(i) => i.owned
  }

  /// The producer is about to call requisition_block.
  predicate Requisitions<T>(sub: Sub<T>) {
    match sub
    case Explicit(e) => e.ring.pc.Requisition?
    case Implicit(i) => i.ring.pc.Requisition?
  }

  /// The block a step gives up: a consumer returns one, or the producer those of a bulk enqueue
  /// it has reverted.
  function Released<T>(sub: Sub<T>, t: Thread, producing: bool): Option<Block> {
    match sub
    case Explicit(_) => None
    case Implicit(i) =>
      if producing then (if i.ring.pc.ReturnBlocks? then i.ring.pc.chain else None)
      else if t in i.claims.pc && i.Cpc(t).FreeBlock? then Some(i.Cpc(t).block) else None
  }

  // ------------------------------------------------ steps on the pool

  /// A thread works on a sub-queue; where its producer needs a block, the thread passes on what
  /// requisition_block has returned.
  function WorkStep<T>(s: State<T>, t: Thread, n: nat, producing: bool, a: Ask<T>): State<T>
    requires t in s.pc
  {
    if n >= |s.subs| then s
    else if producing && Requisitions(s.subs[n]) then
      match s.pc[t]
      case Holding(b) => s.(subs := s.subs[n := SubStep(s.subs[n], t, true, Granted(b))]).Goto(t, Outside).Put(b, In(n))
      case Refused => s.(subs := s.subs[n := SubStep(s.subs[n], t, true, Denied)]).Goto(t, Outside)
      case _ => s
    else if s.pc[t] != Outside then s
    else
      var s1 := s.(subs := s.subs[n := SubStep(s.subs[n], t, producing, a)]);
      match Released(s.subs[n], t, producing)
      case None => s1
      case Some(b) => s1.Goto(t, Returning(b)).Put(b, Held(t))
  }

  /// try_get begins.
  function GetFromList<T>(s: State<T>, t: Thread): State<T>
    requires t in s.list.pc
  {
    s.(list := FreeList.Step(s.list, t, FreeList.CallTryGet)).Goto(t, Getting)
  }

  /// A step inside try_get.
  function GettingStep<T>(s: State<T>, t: Thread): State<T>
    requires t in s.list.pc
  {
    var p := s.list.pc[t];
    var s1 := s.(list := FreeList.Step(s.list, t, FreeList.Go));
    if p.ReleaseTwice? then s1.Goto(t, Holding(p.node)).Put(p.node, Held(t))
    else if t in s1.list.pc && s1.list.pc[t].Idle? then s1.Goto(t, Create)
    else s1
  }

  /// The block goes to the free list; its owner there is the thread that returns it.
  function ReturnStep<T>(s: State<T>, t: Thread, b: Block): State<T>
    requires t in s.list.pc
  {
    if !s.recycle && b >= s.size then s.Goto(t, Outside).Put(b, Destroyed)
    else s.(list := FreeList.Step(s.list.Mark(b, FreeList.Client(t)), t, FreeList.CallAdd(b)))
          .Goto(t, Adding).Put(b, Free)
  }

  function Step<T>(s: State<T>, t: Thread, q: Request<T>): State<T>
    requires t in s.pc && t in s.list.pc
  {
    if q.Work? then WorkStep(s, t, q.sub, q.producing, q.ask)
    else
      match s.pc[t]
      case Outside => if q.Requisition? then s.Goto(t, LoadIndex) else s
      case LoadIndex => if s.index >= s.size then GetFromList(s, t) else s.Goto(t, TakeIndex)
      case TakeIndex =>
        if s.index < s.size then s.(index := s.index + 1).Goto(t, Holding(s.index)).Put(s.index, Held(t))
        else GetFromList(s.(index := s.index + 1), t)
      case Getting => GettingStep(s, t)
      case Create =>
        if q.Allocated? then s.(created := s.created + 1).Goto(t, Holding(s.created)).Put(s.created, Held(t))
        else if q.NotAllocated? then s.Goto(t, Refused)
        else s
      case Returning(b) => ReturnStep(s, t, b)
      case Adding =>
        var s1 := s.(list := FreeList.Step(s.list, t, FreeList.Go));
        if t in s1.list.pc && s1.list.pc[t].Idle? then s1.Goto(t, Outside) else s1
      case _ => s
  }

  // ------------------------------------------------------------ invariant

  ghost predicate SubInv<T>(sub: Sub<T>) {
    match sub
    case Explicit(e) => E.Inv(e)
    case Implicit(i) => I.Inv(i)
  }

  predicate Holds(p: PC, b: Block) {
    (p.Holding? || p.Returning?) && p.block == b
  }

  /// In `add`, which does not come back to try_get.
  predicate InAdd(p: FreeList.PC) {
    p.SetFlag?
    || ((p.LoadHeadToAdd? || p.StoreNext? || p.StoreRefs? || p.Publish? || p.Withdraw?) && p.after.Return?)
  }

  ghost predicate ThreadOk<T>(s: State<T>, t: Thread)
    requires t in s.pc
  {
    t in s.list.pc &&
    match s.pc[t]
    case Getting => !s.list.pc[t].Idle? && !InAdd(s.list.pc[t])
    case Adding => InAdd(s.list.pc[t])
    case _ => s.list.pc[t].Idle?
  }

  /// Every block is in one place.
  ghost predicate PlaceOk<T>(s: State<T>, b: Block) {
    && (s.Place(b) == Unused <==> s.index <= b < s.size || b >= s.created)
    && (s.Place(b) == Free <==> !s.list.Status(b).Client?)
    && (forall t: Thread :: s.Place(b) == Held(t) <==> Holds(s.Pc(t), b))
    && (forall n: nat :: s.Place(b) == In(n) <==> n < |s.subs| && b in Blocks(s.subs[n]))
    && (s.Place(b) == Destroyed ==> b >= s.size && !s.recycle)
  }

  ghost predicate Inv<T>(s: State<T>) {
    && FreeList.Inv(s.list)
    && s.size <= s.created
    && (forall sub <- s.subs :: SubInv(sub))
    && (forall t <- s.pc :: ThreadOk(s, t))
    && (forall b: Block :: PlaceOk(s, b))
  }

  // ---- the blocks of a sub-queue

  function ListedBlocks(starts: seq<Block>): set<Block> {
    set b <- starts
  }

  /// The ring of an explicit producer gains the block it is granted and never loses one.
  lemma ExplicitProducerBlocks<T>(e: E.State<T>, q: E.Request<T>)
    requires E.Inv(e)
    ensures ListedBlocks(E.ProducerStep(e, q).ring.starts) ==
              ListedBlocks(e.ring.starts) + (if e.ring.pc.Requisition? && q.Granted? then {q.block} else {})
  {
    hide E.Inv, E.RingStep, E.StepFlags;
    var r := e.ring;
    E.RingHasInv(e);
    if r.pc.Scan? && r.pc.i == BLOCK_SIZE {
      E.OldestIsDone(e);
      E.ScanTakes(r, e.claims.tail, r.pc.op);
    }
    RingStarts(r, e.claims.tail, e.claims.head, E.FlagsOf(e.flags, r.Next(r.Tail())), q);
  }

  lemma RingStarts<T>(r: E.Ring<T>, tail: nat, head: nat, empty: seq<bool>, q: E.Request<T>)
    requires |empty| == BLOCK_SIZE
    requires r.pc.Scan? ==> r.pc.i <= BLOCK_SIZE
    requires r.pc.Scan? && r.pc.i == BLOCK_SIZE ==>
              0 <= r.Oldest() < |r.starts| && r.Next(r.Tail()) == BlockAt(r.starts, r.Oldest())
    ensures ListedBlocks(E.RingStep(r, tail, head, empty, q).starts) ==
              ListedBlocks(r.starts) + (if r.pc.Requisition? && q.Granted? then {q.block} else {})
  {
    hide StopIndex, BlocksNeeded, FirstBase, E.Retire, E.GrownEntries, ListedBlocks, Wrap;
    Append(r.starts, if r.pc.Scan? then r.Next(r.Tail()) else if q.Granted? then q.block else 0);
    if r.pc.Scan? && r.pc.i == BLOCK_SIZE { Listed(r.starts, r.Next(r.Tail())); }
    if r.pc.Requisition? && q.Granted? && q.block in r.starts { Listed(r.starts, q.block); }
  }

  lemma Append(starts: seq<Block>, b: Block)
    ensures ListedBlocks(starts + [b]) == ListedBlocks(starts) + {b}
  {}

  lemma Listed(starts: seq<Block>, b: Block)
    ensures b in starts ==> ListedBlocks(starts) + {b} == ListedBlocks(starts)
  {}

  lemma ExplicitConsumerBlocks<T>(e: E.State<T>, t: Thread, q: E.Request<T>)
    requires t in e.claims.pc
    ensures E.ConsumerStep(e, t, q).ring == e.ring
  {
    hide StopIndex, E.FlagsOf, E.FlagIndex, E.FlaggedIndex, Claims.Step;
  }

  lemma ImplicitProducerBlocks<T>(i: I.State<T>, q: I.Request<T>)
    requires I.Inv(i)
    ensures var p, owned' := i.ring.pc, I.ProducerStep(i, q).owned;
            && owned' == i.owned + (if p.Requisition? && q.Granted? then {q.block} else {})
                         - (if p.ReturnBlocks? && p.chain.Some? then {p.chain.value} else {})
            && (p.ReturnBlocks? && p.chain.Some? ==> p.chain.value in i.owned)
  {
    hide I.Inv, I.RingStep, I.ValsAfter, I.CountsAfter, I.ElemsAfter, I.ValuesAfter;
    if i.ring.pc.ReturnBlocks? && i.ring.pc.chain.Some? { ChainIsOwned(i); }
  }

  lemma ChainIsOwned<T>(i: I.State<T>)
    requires I.Inv(i) && i.ring.pc.ReturnBlocks? && i.ring.pc.chain.Some?
    ensures i.ring.pc.chain.value in i.owned
  {
    hide SlotOf, I.SlotsOk, I.ValsOk, I.CountsOk, I.ValuesOk, I.ElemsOk, I.GotOk, I.RecycleOk, I.JobsOk, I.LowOk,
        I.EntryFree, Claims.Inv;
    I.RingIsThere(i.ring, i.claims.tail);
    assert i.ring.pc.rest[0] in i.ring.pc.rest;
  }

  lemma ImplicitConsumerBlocks<T>(i: I.State<T>, t: Thread, q: I.Request<T>)
    requires I.Inv(i) && t in i.claims.pc
    ensures var p, owned' := i.Cpc(t), I.ConsumerStep(i, t, q).owned;
            && owned' == i.owned - (if p.FreeBlock? then {p.block} else {})
            && (p.FreeBlock? ==> p.block in i.owned)
  {
    hide I.Inv, I.TakeElement, I.CountEmpty, I.TakeFromIndex, I.LookUp, I.ClaimStep;
    OthersKeepOwned(i, t, q);
    if i.Cpc(t).FreeBlock? {
      I.SlotsAreThere(i, t);
      I.RecycledByOne(i, t, t, i.Cpc(t).begin);
    }
  }

  lemma OthersKeepOwned<T>(i: I.State<T>, t: Thread, q: I.Request<T>)
    requires t in i.claims.pc
    ensures i.Cpc(t).Idle? ==> I.ClaimStep(i, t, q).owned == i.owned
    ensures i.Cpc(t).MoveOut? ==> I.TakeElement(i, t).owned == i.owned
    ensures i.Cpc(t).Count? ==> I.CountEmpty(i, t).owned == i.owned
    ensures i.Cpc(t).ClearEntry? ==> I.TakeFromIndex(i, t).owned == i.owned
  {
    hide StopIndex, I.AfterCount, I.CountOf, I.Range, Claims.Step;
  }

  /// The thread is not asleep for so long that the counters of the sub-queue wrap around.
  predicate InRange<T>(sub: Sub<T>, t: Thread) {
    match sub
    case Explicit(e) => Claims.InRange(e.claims, t)
    case Implicit(i) => Claims.InRange(i.claims, t)
  }

  lemma SubStepKeepsInv<T>(sub: Sub<T>, t: Thread, producing: bool, a: Ask<T>)
    requires SubInv(sub) && (producing || InRange(sub, t))
    ensures SubInv(SubStep(sub, t, producing, a))
  {
    hide E.Inv, I.Inv, E.Move, I.Move;
    match sub {
      case Explicit(e) => E.MoveKeepsInv(e, (if producing then E.Producer else E.Consumer(t), ToExplicit(a)));
      case Implicit(i) => I.MoveKeepsInv(i, (if producing then I.Producer else I.Consumer(t), ToImplicit(a)));
    }
  }

  function Gained<T>(sub: Sub<T>, producing: bool, a: Ask<T>): set<Block> {
    if producing && Requisitions(sub) && a.Granted? then {a.block} else {}
  }

  function Lost(released: Option<Block>): set<Block> {
    if released.Some? then {released.value} else {}
  }

  /// The blocks of a sub-queue change exactly by what it is granted and what it releases.
  lemma SubStepBlocks<T>(sub: Sub<T>, t: Thread, producing: bool, a: Ask<T>)
    requires SubInv(sub)
    ensures var released := Released(sub, t, producing);
            && Blocks(SubStep(sub, t, producing, a)) == Blocks(sub) + Gained(sub, producing, a) - Lost(released)
            && (released.Some? ==> released.value in Blocks(sub) && Gained(sub, producing, a) == {})
  {
    hide E.Inv, I.Inv, E.ProducerStep, I.ProducerStep, E.ConsumerStep, I.ConsumerStep;
    match sub {
      case Explicit(e) =>
        if producing { ExplicitProducerBlocks(e, ToExplicit(a)); }
        else if t in e.claims.pc { ExplicitConsumerBlocks(e, t, ToExplicit(a)); }
      case Implicit(i) =>
        if producing { ImplicitProducerBlocks(i, ToImplicit(a)); }
        else if t in i.claims.pc { ImplicitConsumerBlocks(i, t, ToImplicit(a)); }
    }
  }

  // ---- steps keep the invariant

  predicate UnusedIn<T>(s: State<T>, b: Block) {
    s.index <= b < s.size || b >= s.created
  }

  predicate InSub<T>(s: State<T>, n: nat, b: Block) {
    n < |s.subs| && b in Blocks(s.subs[n])
  }

  /// Nothing has happened to the block.
  ghost predicate Unmoved<T>(s: State<T>, s': State<T>, t: Thread, b: Block) {
    && s'.Place(b) == s.Place(b)
    && (UnusedIn(s', b) <==> UnusedIn(s, b))
    && (s'.list.Status(b).Client? <==> s.list.Status(b).Client?)
    && (Holds(s'.Pc(t), b) <==> Holds(s.Pc(t), b))
    && (forall n: nat :: InSub(s', n, b) <==> InSub(s, n, b))
  }

  predicate OnlyThread<T>(s: State<T>, s': State<T>, t: Thread) {
    && s'.size == s.size && s'.recycle == s.recycle
    && t in s.pc && t in s'.pc && s'.pc == s.pc[t := s'.pc[t]]
    && t in s.list.pc && t in s'.list.pc && s'.list.pc == s.list.pc[t := s'.list.pc[t]]
  }

  lemma UnmovedOk<T>(s: State<T>, s': State<T>, t: Thread, b: Block)
    requires PlaceOk(s, b) && OnlyThread(s, s', t) && Unmoved(s, s', t, b)
    ensures PlaceOk(s', b)
  {
    hide Holds, Blocks;
    forall u: Thread ensures s'.Place(b) == Held(u) <==> Holds(s'.Pc(u), b) {}
    forall n: nat ensures s'.Place(b) == In(n) <==> n < |s'.subs| && b in Blocks(s'.subs[n]) {
      assert InSub(s', n, b) <==> InSub(s, n, b);
    }
  }

  lemma Frame<T>(s: State<T>, s': State<T>, t: Thread, moved: Option<Block>)
    requires Inv(s) && OnlyThread(s, s', t)
    requires FreeList.Inv(s'.list) && s'.size <= s'.created && (forall sub <- s'.subs :: SubInv(sub)) && ThreadOk(s', t)
    requires forall b: Block | moved != Some(b) :: Unmoved(s, s', t, b)
    requires moved.Some? ==> PlaceOk(s', moved.value)
    ensures Inv(s')
  {
    hide FreeList.Inv, SubInv, ThreadOk, PlaceOk, Unmoved;
    forall b: Block ensures PlaceOk(s', b) {
      if moved != Some(b) { UnmovedOk(s, s', t, b); }
    }
    forall u | u in s'.pc ensures ThreadOk(s', u) {
      if u != t { OtherThread(s, s', t, u); }
    }
  }

  lemma OtherThread<T>(s: State<T>, s': State<T>, t: Thread, u: Thread)
    requires OnlyThread(s, s', t) && u in s.pc && u != t && ThreadOk(s, u)
    ensures ThreadOk(s', u)
  {}

  /// A step of the thread inside the free list moves only the block it gets or adds.
  lemma ListStep(l: FreeList.State, t: Thread, q: FreeList.Request)
    requires FreeList.Inv(l) && t in l.pc
    ensures var l' := FreeList.Step(l, t, q);
            && FreeList.Inv(l') && t in l'.pc && l'.pc == l.pc[t := l'.pc[t]]
            && (forall n: FreeList.Node | !FreeList.Adds(l, (t, q), n) && !FreeList.Gets(l, (t, q), n) ::
                  l'.Status(n).Client? <==> l.Status(n).Client?)
  {
    hide FreeList.Inv, FreeList.Step, FreeList.Adds, FreeList.Gets;
    FreeList.StepKeepsInv(l, t, q);
    forall n: FreeList.Node | !FreeList.Adds(l, (t, q), n) && !FreeList.Gets(l, (t, q), n)
      ensures FreeList.Step(l, t, q).Status(n).Client? <==> l.Status(n).Client?
    {
      FreeList.MoveKeepsInv(l, (t, q), n);
    }
  }

  /// Inside try_get a thread stays there, until it has a node or the list is empty; inside add
  /// likewise.
  lemma ListPlaces(l: FreeList.State, t: Thread)
    requires t in l.pc && !l.pc[t].Idle? && t in FreeList.Step(l, t, FreeList.Go).pc
    ensures Follows(l.pc[t], FreeList.Step(l, t, FreeList.Go).pc[t])
  {
    hide FreeList.Step;
    AddingPlaces(l, t);
    LinkingPlaces(l, t);
    GettingPlaces(l, t);
    UnlinkingPlaces(l, t);
  }

  predicate Follows(p: FreeList.PC, p': FreeList.PC) {
    && (InAdd(p) ==> p'.Idle? || InAdd(p'))
    && (!InAdd(p) ==> !InAdd(p') && (p.ReleaseTwice? ==> p'.Idle?))
  }

  lemma AddingPlaces(l: FreeList.State, t: Thread)
    requires t in l.pc && t in FreeList.Step(l, t, FreeList.Go).pc
    ensures l.pc[t].SetFlag? || l.pc[t].LoadHeadToAdd? || l.pc[t].StoreNext? || l.pc[t].StoreRefs? ==>
              Follows(l.pc[t], FreeList.Step(l, t, FreeList.Go).pc[t])
  {
    hide FreeList.FetchAdd, FreeList.FetchSub, FreeList.RefCount, FreeList.LoopOn;
  }

  lemma LinkingPlaces(l: FreeList.State, t: Thread)
    requires t in l.pc && t in FreeList.Step(l, t, FreeList.Go).pc
    ensures l.pc[t].Publish? || l.pc[t].Withdraw? ==> Follows(l.pc[t], FreeList.Step(l, t, FreeList.Go).pc[t])
  {
    hide FreeList.FetchAdd, FreeList.FetchSub, FreeList.RefCount;
  }

  lemma GettingPlaces(l: FreeList.State, t: Thread)
    requires t in l.pc && t in FreeList.Step(l, t, FreeList.Go).pc
    ensures l.pc[t].LoadHead? || l.pc[t].LoadRefs? || l.pc[t].Acquire? || l.pc[t].ReadNext? ==>
              Follows(l.pc[t], FreeList.Step(l, t, FreeList.Go).pc[t])
  {
    hide FreeList.FetchAdd, FreeList.FetchSub, FreeList.RefCount;
  }

  lemma UnlinkingPlaces(l: FreeList.State, t: Thread)
    requires t in l.pc && t in FreeList.Step(l, t, FreeList.Go).pc
    ensures l.pc[t].Unlink? || l.pc[t].ReleaseTwice? || l.pc[t].ReleaseOnce? ==>
              Follows(l.pc[t], FreeList.Step(l, t, FreeList.Go).pc[t])
  {
    hide FreeList.FetchAdd, FreeList.FetchSub, FreeList.RefCount;
  }

  lemma GetBegins<T>(s: State<T>, t: Thread, index: nat)
    requires Inv(s) && t in s.pc && (s.pc[t].LoadIndex? || s.pc[t].TakeIndex?) && t in s.list.pc
              && s.size <= s.index <= index
    ensures Inv(GetFromList(s.(index := index), t))
  {
    hide FreeList.Inv, SubInv, Blocks, PlaceOk;
    assert ThreadOk(s, t);
    ListStep(s.list, t, FreeList.CallTryGet);
    Frame(s, GetFromList(s.(index := index), t), t, None);
  }

  lemma GettingKeepsInv<T>(s: State<T>, t: Thread)
    requires Inv(s) && t in s.pc && s.pc[t].Getting? && t in s.list.pc
    ensures Inv(GettingStep(s, t))
  {
    hide FreeList.Inv, FreeList.Step, SubInv, Blocks, PlaceOk;
    assert ThreadOk(s, t);
    ListStep(s.list, t, FreeList.Go);
    ListPlaces(s.list, t);
    var p, s' := s.list.pc[t], GettingStep(s, t);
    if p.ReleaseTwice? {
      GotOne(s, t, p.node);
      Frame(s, s', t, Some(p.node));
    } else {
      Frame(s, s', t, None);
    }
  }

  lemma GotOne<T>(s: State<T>, t: Thread, b: Block)
    requires Inv(s) && t in s.pc && s.pc[t].Getting? && t in s.list.pc && s.list.pc[t] == FreeList.ReleaseTwice(b)
    ensures PlaceOk(GettingStep(s, t), b)
  {
    hide SubInv, Blocks;
    assert PlaceOk(s, b);
    assert FreeList.PcOk(s.list, t);
  }

  lemma MarkKeepsInv(l: FreeList.State, t: Thread, b: Block)
    requires FreeList.Inv(l) && l.Status(b).Client?
    ensures FreeList.Inv(l.Mark(b, FreeList.Client(t)))
  {
    var l' := l.Mark(b, FreeList.Client(t));
    forall n: FreeList.Node ensures FreeList.RefsOk(l', n) && FreeList.StatusOk(l', n) {
      assert FreeList.RefsOk(l, n) && FreeList.StatusOk(l, n);
      assert FreeList.Holders(l', n) == FreeList.Holders(l, n);
    }
    forall u | u in l'.pc ensures FreeList.PcOk(l', u) { assert FreeList.PcOk(l, u); }
    assert FreeList.ListOk(l') by {
      forall i | 0 <= i < |l'.list| ensures l'.Next(l'.list[i]) == FreeList.LinkAt(l'.list, i + 1) {
        assert l.Next(l.list[i]) == FreeList.LinkAt(l.list, i + 1);
      }
    }
  }

  lemma AddBegins(l: FreeList.State, t: Thread, b: Block)
    requires t in l.pc && l.pc[t].Idle?
    ensures var l1 := l.Mark(b, FreeList.Client(t)); var l' := FreeList.Step(l1, t, FreeList.CallAdd(b));
            && t in l'.pc && l'.pc == l.pc[t := l'.pc[t]] && InAdd(l'.pc[t])
            && !l'.Status(b).Client? && (forall n: FreeList.Node | n != b :: l'.Status(n) == l.Status(n))
  {}

  lemma ReturnKeepsInv<T>(s: State<T>, t: Thread)
    requires Inv(s) && t in s.pc && s.pc[t].Returning? && t in s.list.pc
    ensures Inv(ReturnStep(s, t, s.pc[t].block))
  {
    hide FreeList.Inv, FreeList.Step, SubInv, Blocks, PlaceOk;
    var b := s.pc[t].block;
    var l, s' := s.list.Mark(b, FreeList.Client(t)), ReturnStep(s, t, b);
    assert ThreadOk(s, t);
    HeldByClient(s, t, b);
    MarkKeepsInv(s.list, t, b);
    AddBegins(s.list, t, b);
    FreeList.StepKeepsInv(l, t, FreeList.CallAdd(b));
    assert s.list.pc == s.list.pc[t := s.list.pc[t]];
    ReturnedPlace(s, s', t, b);
    Frame(s, s', t, Some(b));
  }

  lemma HeldByClient<T>(s: State<T>, t: Thread, b: Block)
    requires Inv(s) && Holds(s.Pc(t), b)
    ensures s.Place(b) == Held(t) && s.list.Status(b).Client? && !UnusedIn(s, b)
  {
    assert PlaceOk(s, b);
  }

  /// A block one thread holds goes to a place without a thread or a sub-queue.
  lemma ReturnedPlace<T>(s: State<T>, s': State<T>, t: Thread, b: Block)
    requires Inv(s) && Holds(s.Pc(t), b) && (s'.Place(b) == Free || s'.Place(b) == Destroyed)
    requires t in s.pc && t in s'.pc && s'.pc == s.pc[t := s'.pc[t]] && !Holds(s'.Pc(t), b) && s'.subs == s.subs
    requires s'.index == s.index && s'.size == s.size && s'.created == s.created && s'.recycle == s.recycle
    requires s'.Place(b) == Destroyed ==> b >= s.size && !s.recycle
    requires s'.Place(b) == Free <==> !s'.list.Status(b).Client?
    ensures PlaceOk(s', b)
  {
    hide FreeList.Inv, SubInv, Blocks, ThreadOk;
    assert PlaceOk(s, b);
    forall u: Thread ensures s'.Place(b) == Held(u) <==> Holds(s'.Pc(u), b) {
      assert s.Place(b) == Held(u) <==> Holds(s.Pc(u), b);
    }
  }

  lemma AddingKeepsInv<T>(s: State<T>, t: Thread)
    requires Inv(s) && t in s.pc && s.pc[t].Adding? && t in s.list.pc
    ensures Inv(Step(s, t, Next))
  {
    hide FreeList.Inv, FreeList.Step, SubInv, Blocks, PlaceOk;
    assert ThreadOk(s, t);
    ListStep(s.list, t, FreeList.Go);
    ListPlaces(s.list, t);
    Frame(s, Step(s, t, Next), t, None);
  }

  /// A thread gets a block nobody has had before.
  lemma TakesUnused<T>(s: State<T>, s': State<T>, t: Thread, b: Block)
    requires Inv(s) && t in s.pc && s.Place(b) == Unused && !s.pc[t].Holding? && !s.pc[t].Returning?
              && !s.pc[t].Getting? && !s.pc[t].Adding?
    requires s' == s.(index := s'.index, created := s'.created).Goto(t, Holding(b)).Put(b, Held(t))
              && s'.size <= s'.created
    requires forall c: Block :: UnusedIn(s', c) <==> UnusedIn(s, c) && c != b
    ensures Inv(s')
  {
    hide FreeList.Inv, SubInv, Blocks;
    assert ThreadOk(s, t);
    assert PlaceOk(s, b);
    assert s.list.pc == s.list.pc[t := s.list.pc[t]];
    assert PlaceOk(s', b) by {
      assert !UnusedIn(s', b) && s'.Place(b) == Held(t);
      forall u: Thread ensures s'.Place(b) == Held(u) <==> Holds(s'.Pc(u), b) { assert !Holds(s.Pc(u), b); }
      forall n: nat ensures s'.Place(b) == In(n) <==> n < |s'.subs| && b in Blocks(s'.subs[n]) {}
    }
    hide PlaceOk;
    Frame(s, s', t, Some(b));
  }

  /// A thread moves on without touching any block.
  lemma MovesOn<T>(s: State<T>, s': State<T>, t: Thread)
    requires Inv(s) && t in s.pc && t in s'.pc && s' == s.Goto(t, s'.pc[t])
    requires !s.pc[t].Holding? && !s.pc[t].Returning? && !s.pc[t].Getting? && !s.pc[t].Adding?
    requires !s'.pc[t].Holding? && !s'.pc[t].Returning? && !s'.pc[t].Getting? && !s'.pc[t].Adding?
    ensures Inv(s')
  {
    hide FreeList.Inv, SubInv, Blocks, PlaceOk;
    assert ThreadOk(s, t);
    assert s.list.pc == s.list.pc[t := s.list.pc[t]];
    Frame(s, s', t, None);
  }

  lemma TakeIndexKeepsInv<T>(s: State<T>, t: Thread)
    requires Inv(s) && t in s.pc && s.pc[t].TakeIndex? && t in s.list.pc
    ensures Inv(Step(s, t, Next))
  {
    hide Inv, FreeList.Step, GetFromList;
    if s.index < s.size {
      PlaceUnused(s, s.index);
      CreatedBound(s);
      TakesUnused(s, Step(s, t, Next), t, s.index);
    } else {
      GetBegins(s, t, s.index + 1);
    }
  }

  lemma PlaceUnused<T>(s: State<T>, b: Block)
    requires Inv(s)
    ensures s.Place(b) == Unused <==> UnusedIn(s, b)
  {
    assert PlaceOk(s, b);
  }

  /// Steps on a sub-queue.
  lemma WorkKeepsInv<T>(s: State<T>, t: Thread, n: nat, producing: bool, a: Ask<T>)
    requires Inv(s) && t in s.pc && t in s.list.pc
    requires n < |s.subs| && !producing ==> InRange(s.subs[n], t)
    ensures Inv(WorkStep(s, t, n, producing, a))
  {
    hide FreeList.Inv, SubInv, Blocks, PlaceOk, Requisitions, Released, SubStep;
    if n < |s.subs| {
      var sub := s.subs[n];
      assert sub in s.subs;
      if producing && Requisitions(sub) {
        match s.pc[t] {
          case Holding(b) => GrantKeepsInv(s, t, n, b);
          case Refused => RefuseKeepsInv(s, t, n);
          case _ =>
        }
      } else if s.pc[t] == Outside {
        SubWorks(s, t, n, producing, a);
      }
    }
  }

  lemma SubsReplaced<T>(s: State<T>, n: nat, sub: Sub<T>)
    requires Inv(s) && n < |s.subs| && SubInv(sub)
    ensures forall x <- s.subs[n := sub] :: SubInv(x)
  {
    hide SubInv, PlaceOk, ThreadOk, FreeList.Inv;
    forall x | x in s.subs[n := sub] ensures SubInv(x) {
      var i :| 0 <= i < |s.subs| && s.subs[n := sub][i] == x;
      if i != n { assert s.subs[i] in s.subs; }
    }
  }

  /// The block granted to a sub-queue is one that no sub-queue has.
  lemma GrantKeepsInv<T>(s: State<T>, t: Thread, n: nat, b: Block)
    requires Inv(s) && t in s.pc && n < |s.subs| && s.pc[t] == Holding(b) && Requisitions(s.subs[n])
    ensures Inv(WorkStep(s, t, n, true, Go))
    ensures forall i | 0 <= i < |s.subs| :: b !in Blocks(s.subs[i])
  {
    hide FreeList.Inv, SubInv, Blocks, Requisitions, Released, SubStep;
    var sub, s' := s.subs[n], WorkStep(s, t, n, true, Go);
    assert ThreadOk(s, t);
    assert PlaceOk(s, b) && Holds(s.Pc(t), b);
    assert sub in s.subs;
    SubStepKeepsInv(sub, t, true, Granted(b));
    SubStepBlocks(sub, t, true, Granted(b));
    ReleasesElsewhere(sub, t);
    SubsReplaced(s, n, SubStep(sub, t, true, Granted(b)));
    assert s.list.pc == s.list.pc[t := s.list.pc[t]];
    assert PlaceOk(s', b);
    hide PlaceOk;
    Frame(s, s', t, Some(b));
  }

  lemma ReleasesElsewhere<T>(sub: Sub<T>, t: Thread)
    ensures Requisitions(sub) ==> Released(sub, t, true).None?
  {}

  lemma RefuseKeepsInv<T>(s: State<T>, t: Thread, n: nat)
    requires Inv(s) && t in s.pc && n < |s.subs| && s.pc[t] == Refused && Requisitions(s.subs[n])
    ensures Inv(WorkStep(s, t, n, true, Go))
  {
    hide FreeList.Inv, SubInv, Blocks, PlaceOk, Requisitions, Released, SubStep;
    var sub, s' := s.subs[n], WorkStep(s, t, n, true, Go);
    assert ThreadOk(s, t);
    assert sub in s.subs;
    SubStepKeepsInv(sub, t, true, Denied);
    SubStepBlocks(sub, t, true, Denied);
    ReleasesElsewhere(sub, t);
    SubsReplaced(s, n, SubStep(sub, t, true, Denied));
    assert s.list.pc == s.list.pc[t := s.list.pc[t]];
    Frame(s, s', t, None);
  }

  lemma SubWorks<T>(s: State<T>, t: Thread, n: nat, producing: bool, a: Ask<T>)
    requires Inv(s) && t in s.pc && n < |s.subs| && s.pc[t] == Outside && !(producing && Requisitions(s.subs[n]))
    requires !producing ==> InRange(s.subs[n], t)
    ensures Inv(WorkStep(s, t, n, producing, a))
  {
    hide FreeList.Inv, SubInv, Blocks, Requisitions, Released, SubStep, InRange;
    var sub, s' := s.subs[n], WorkStep(s, t, n, producing, a);
    assert ThreadOk(s, t);
    assert sub in s.subs;
    SubStepKeepsInv(sub, t, producing, a);
    SubStepBlocks(sub, t, producing, a);
    SubsReplaced(s, n, SubStep(sub, t, producing, a));
    assert s.list.pc == s.list.pc[t := s.list.pc[t]];
    assert s.pc == s.pc[t := s.pc[t]];
    match Released(sub, t, producing) {
      case None => hide PlaceOk; Frame(s, s', t, None);
      case Some(b) =>
        assert InSub(s, n, b);
        assert PlaceOk(s, b);
        assert PlaceOk(s', b);
        hide PlaceOk;
        Frame(s, s', t, Some(b));
    }
  }

  lemma StepKeepsInv<T>(s: State<T>, t: Thread, q: Request<T>)
    requires Inv(s) && t in s.pc && t in s.list.pc
    requires q.Work? && q.sub < |s.subs| && !q.producing ==> InRange(s.subs[q.sub], t)
    ensures Inv(Step(s, t, q))
  {
    hide Inv, WorkStep, GetFromList, GettingStep, ReturnStep, FreeList.Step, InRange;
    if q.Work? {
      WorkKeepsInv(s, t, q.sub, q.producing, q.ask);
    } else {
      match s.pc[t] {
        case Outside => if q.Requisition? { MovesOn(s, Step(s, t, q), t); }
        case LoadIndex => if s.index >= s.size { GetBegins(s, t, s.index); } else { MovesOn(s, Step(s, t, q), t); }
        case TakeIndex => TakeIndexKeepsInv(s, t);
        case Getting => GettingKeepsInv(s, t);
        case Create =>
          if q.Allocated? {
            PlaceUnused(s, s.created);
            CreatedBound(s);
            TakesUnused(s, Step(s, t, q), t, s.created);
          } else if q.NotAllocated? {
            MovesOn(s, Step(s, t, q), t);
          }
        case Returning(_) => ReturnKeepsInv(s, t);
        case Adding => AddingKeepsInv(s, t);
        case _ =>
      }
    }
  }

  lemma CreatedBound<T>(s: State<T>)
    requires Inv(s)
    ensures s.size <= s.created
  {}

  // ------------------------------------------------------------- theorems

  ghost predicate Init<T>(s: State<T>) {
    && FreeList.Init(s.list)
    && s.index == 0 && s.created == s.size
    && (forall t <- s.pc :: s.pc[t] == Outside && t in s.list.pc)
    && (forall sub <- s.subs :: match sub case Explicit(e) => E.Init(e) case Implicit(i) => I.Init(i))
    && (forall b :: s.Place(b) == Unused)
  }

  lemma InitHasInv<T>(s: State<T>)
    requires Init(s)
    ensures Inv(s)
  {
    hide E.Inv, E.Init, I.Inv, I.Init, FreeList.Inv;
    FreeList.InitHasInv(s.list);
    forall sub | sub in s.subs ensures SubInv(sub) && Blocks(sub) == {} {
      match sub {
        case Explicit(e) => E.InitHasInv(e); NoExplicitBlocks(e);
        case Implicit(i) => I.InitHasInv(i); NoImplicitBlocks(i);
      }
    }
    forall b: Block ensures PlaceOk(s, b) {
      forall n: nat ensures s.Place(b) == In(n) <==> n < |s.subs| && b in Blocks(s.subs[n]) {
        if n < |s.subs| { assert s.subs[n] in s.subs; }
      }
    }
  }

  lemma NoExplicitBlocks<T>(e: E.State<T>)
    requires E.Init(e)
    ensures e.ring.starts == []
  {
    E.InitRing(e);
  }

  lemma NoImplicitBlocks<T>(i: I.State<T>)
    requires I.Init(i)
    ensures i.owned == {}
  {}

  type Schedule<T> = seq<(Thread, Request<T>)>

  function Move<T>(s: State<T>, m: (Thread, Request<T>)): State<T> {
    if m.0 in s.pc && m.0 in s.list.pc then Step(s, m.0, m.1) else s
  }

  function Run<T>(s: State<T>, schedule: Schedule<T>): State<T>
    decreases |schedule|
  {
    if schedule == [] then s else Run(Move(s, schedule[0]), schedule[1..])
  }

  /// No consumer sleeps between its loads until the counters of a sub-queue have moved by 2^63.
  predicate NoWrapAround<T>(s: State<T>, schedule: Schedule<T>)
    decreases |schedule|
  {
    schedule == [] ||
    (var (t, q) := schedule[0];
     && (q.Work? && q.sub < |s.subs| && !q.producing ==> InRange(s.subs[q.sub], t))
     && NoWrapAround(Move(s, schedule[0]), schedule[1..]))
  }

  /// Every interleaving of any number of threads on any number of sub-queues keeps the invariant,
  /// and with it that of every sub-queue and of the free list.
  lemma {:induction false} RunKeepsInv<T>(s: State<T>, schedule: Schedule<T>)
    requires Inv(s) && NoWrapAround(s, schedule)
    ensures Inv(Run(s, schedule))
    decreases |schedule|
  {
    hide Inv, Step, InRange;
    if schedule != [] {
      var (t, q) := schedule[0];
      if t in s.pc && t in s.list.pc { StepKeepsInv(s, t, q); }
      RunKeepsInv(Move(s, schedule[0]), schedule[1..]);
    }
  }

  /// No block is in two sub-queues, and none of a sub-queue's is on the free list, about to get
  /// there, in the hands of a thread, or still in the initial pool.
  lemma BlocksApart<T>(s: State<T>, schedule: Schedule<T>, n: nat, b: Block)
    requires Init(s) && NoWrapAround(s, schedule)
    requires n < |Run(s, schedule).subs| && b in Blocks(Run(s, schedule).subs[n])
    ensures var e := Run(s, schedule);
            && (forall i | 0 <= i < |e.subs| :: b in Blocks(e.subs[i]) ==> i == n)
            && e.list.Status(b).Client? && b !in e.list.list
            && (forall t :: !Holds(e.Pc(t), b))
            && b < e.created && !(e.index <= b < e.size)
  {
    hide Inv, Blocks, FreeList.Inv;
    InitHasInv(s);
    RunKeepsInv(s, schedule);
    var e := Run(s, schedule);
    PlaceAt(e, b);
    assert e.Place(b) == In(n);
    ListedAreFree(e, b);
  }

  lemma PlaceAt<T>(e: State<T>, b: Block)
    requires Inv(e)
    ensures PlaceOk(e, b)
  {}

  lemma ListedAreFree<T>(e: State<T>, b: Block)
    requires Inv(e)
    ensures b in e.list.list ==> !e.list.Status(b).Client?
  {
    hide SubInv, PlaceOk, ThreadOk;
  }

  /// What requisition_block returns is a block that no sub-queue holds and no other thread has, so
  /// that the producer that asked for it can always take it.
  lemma GrantedIsFree<T>(s: State<T>, schedule: Schedule<T>, t: Thread, b: Block)
    requires Init(s) && NoWrapAround(s, schedule) && Run(s, schedule).Pc(t) == Holding(b)
    ensures var e := Run(s, schedule);
            && (forall i | 0 <= i < |e.subs| :: b !in Blocks(e.subs[i]))
            && (forall u :: Holds(e.Pc(u), b) ==> u == t)
            && b !in e.list.list && b < e.created
  {
    hide Inv, Blocks, FreeList.Inv;
    InitHasInv(s);
    RunKeepsInv(s, schedule);
    var e := Run(s, schedule);
    PlaceAt(e, b);
    assert Holds(e.Pc(t), b);
    ListedAreFree(e, b);
  }

  ghost predicate Quiescent<T>(s: State<T>) {
    forall t <- s.pc :: s.pc[t] == Outside
  }

  /// Conservation: with no thread inside the pool, every block that has been handed out is on the
  /// free list, in exactly one sub-queue, or destroyed, and only blocks that were not in the
  /// initial pool are ever destroyed.
  lemma NoBlockLost<T>(s: State<T>, schedule: Schedule<T>, b: Block)
    requires Init(s) && NoWrapAround(s, schedule) && Quiescent(Run(s, schedule))
    requires forall t <- Run(s, schedule).list.pc :: t in Run(s, schedule).pc
    ensures var e := Run(s, schedule);
            && (b < e.created && !(e.index <= b < e.size) <==>
                  b in e.list.list || (exists n: nat :: n < |e.subs| && b in Blocks(e.subs[n]))
                      || e.Place(b) == Destroyed)
            && !(b in e.list.list && exists n: nat :: n < |e.subs| && b in Blocks(e.subs[n]))
            && (e.Place(b) == Destroyed ==> b >= e.size && !e.recycle)
  {
    hide Inv, Blocks, FreeList.Inv;
    InitHasInv(s);
    RunKeepsInv(s, schedule);
    var e := Run(s, schedule);
    PlaceAt(e, b);
    AtRest(e, b);
    assert forall t: Thread :: !Holds(e.Pc(t), b);
    if e.Place(b).In? { assert e.Place(b) == In(e.Place(b).sub); }
    forall n: nat | n < |e.subs| && b in Blocks(e.subs[n]) ensures e.Place(b) == In(n) {}
  }

  lemma AtRest<T>(e: State<T>, b: Block)
    requires Inv(e) && Quiescent(e) && forall t <- e.list.pc :: t in e.pc
    ensures b in e.list.list <==> !e.list.Status(b).Client?
  {
    hide SubInv, PlaceOk;
    forall t | t in e.list.pc ensures e.list.pc[t] == FreeList.Idle { assert ThreadOk(e, t); }
    FreeList.QuiescentNode(e.list, b);
  }
}
