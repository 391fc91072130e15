/// How threads get producers (concurrentqueue.h: `recycle_or_create_producer`, `add_producer`, the
/// pool of producers allocated by the constructor, and their destruction), any number of threads,
/// one atomic operation per step.
///
/// `list`, `place`, `owner` and `taker` are history variables.
module ProducerPool {
  import opened Wrappers

  type Thread = nat
  type Producer = nat

  /// `unsigned` and `std::uint32_t` counters.
  const WORD := 0x1_0000_0000

  datatype PC =
    | Idle
    | LoadList(explicit_: bool)
    | Look(explicit_: bool, at: Option<Producer>)
    | Catch(explicit_: bool, producer: Producer)
    | CheckPool
    | TakeTicket
    | TakeFromPool(ticket: nat)
    | Activate(producer: Producer)
    | Create(explicit_: bool)
    | CountUp(producer: Producer)
    | LoadTail(producer: Producer)
    | StoreNext(producer: Producer, prev: Option<Producer>)
    | Link(producer: Producer, prev: Option<Producer>)

  /// History: where a producer is.
  datatype Place = Nowhere | Pooled(slot: nat) | Carried(thread: Thread) | Listed

  datatype State = State(
    tail: Option<Producer>,
    next: map<Producer, Option<Producer>>,
    inactive: map<Producer, bool>,
    explicits: set<Producer>,
    count: nat,
    pool: seq<Option<Producer>>,
    nextIndex: nat,
    created: nat,                      // producers below this number exist
    pc: map<Thread, PC>,
    list: seq<Producer>,
    place: map<Producer, Place>,
    owner: map<Producer, Thread>,
    taker: map<nat, Thread>)
  {
    function Goto(t: Thread, p: PC): State { this.(pc := pc[t := p]) }
    function Next(p: Producer): Option<Producer> { if p in next then next[p] else None }
    function Inactive(p: Producer): bool { p in inactive && inactive[p] }
    function Place(p: Producer): Place { if p in place then place[p] else Nowhere }
    function SetInactive(p: Producer, b: bool): State { this.(inactive := inactive[p := b]) }
    function Put(p: Producer, x: Place): State { this.(place := place[p := x]) }
    function PoolAt(i: nat): Option<Producer> { if i < |pool| then pool[i] else None }
  }

  datatype Request = Get(explicit_: bool) | Release(producer: Producer) | Allocated | Denied | Go

  // ---------------------------------------------------------------- steps

  /// When no listed producer could be caught.
  function NotFound(explicit_: bool): PC {
    if explicit_ then Create(true) else CheckPool
  }

  function LookAt(explicit_: bool, at: Option<Producer>): PC {
    if at.None? then NotFound(explicit_) else Look(explicit_, at)
  }

  /// Only the owner of a producer releases it.
  function Step(s: State, t: Thread, q: Request): State
    requires t in s.pc
  {
    match s.pc[t]
    case Idle =>
      (match q
       case Get(e) => s.Goto(t, LoadList(e))
       case Release(p) =>
         if p in s.owner && s.owner[p] == t then s.SetInactive(p, true).(owner := s.owner - {p}) else s
       case _ => s)
    case LoadList(e) => s.Goto(t, LookAt(e, s.tail))
    case Look(e, at) =>
      if at.None? then s.Goto(t, NotFound(e))
      else if s.Inactive(at.value) && (at.value in s.explicits) == e then s.Goto(t, Catch(e, at.value))
      else s.Goto(t, LookAt(e, s.Next(at.value)))
    case Catch(e, p) =>
      if s.Inactive(p) then s.SetInactive(p, false).(owner := s.owner[p := t]).Goto(t, Idle)    // returns p
      else s.Goto(t, LookAt(e, s.Next(p)))
    case CheckPool => s.Goto(t, if s.nextIndex < |s.pool| then TakeTicket else Create(false))
    case TakeTicket =>
      s.(nextIndex := (s.nextIndex + 1) % WORD, taker := s.taker[s.nextIndex := t])
       .Goto(t, if s.nextIndex < |s.pool| then TakeFromPool(s.nextIndex) else Create(false))
    case TakeFromPool(i) =>
      var p := s.PoolAt(i);
      if p.None? || i >= |s.pool| then s else
      s.(pool := s.pool[i := None]).Put(p.value, Carried(t)).Goto(t, Activate(p.value))
    case Activate(p) => s.SetInactive(p, false).Goto(t, CountUp(p))
    case Create(e) =>
      if q.Allocated? then
        s.(created := s.created + 1, explicits := if e then s.explicits + {s.created} else s.explicits)
         .SetInactive(s.created, false).Put(s.created, Carried(t)).Goto(t, CountUp(s.created))
      else if q.Denied? then s.Goto(t, Idle)     // returns null
      else s
    case CountUp(p) => s.(count := (s.count + 1) % WORD).Goto(t, LoadTail(p))
    case LoadTail(p) => s.Goto(t, StoreNext(p, s.tail))
    case StoreNext(p, prev) => s.(next := s.next[p := prev]).Goto(t, Link(p, prev))
    case Link(p, prev) =>
      if s.tail == prev
      // returns p
      then s.(tail := Some(p), list := [p] + s.list, owner := s.owner[p := t]).Put(p, Listed).Goto(t, Idle)
      else s.Goto(t, StoreNext(p, s.tail))
  }

  // ------------------------------------------------------------ invariant

  predicate Carries(p: PC, n: Producer) {
    (p.Activate? || p.CountUp? || p.LoadTail? || p.StoreNext? || p.Link?) && p.producer == n
  }

  function LinkAt(l: seq<Producer>, i: nat): Option<Producer> {
    if i < |l| then Some(l[i]) else None
  }

  /// `list` is the chain from the tail pointer; no producer occurs in it twice.
  ghost predicate ListOk(s: State) {
    && s.tail == LinkAt(s.list, 0)
    && (forall i {:trigger s.Next(s.list[i])} | 0 <= i < |s.list| :: s.Next(s.list[i]) == LinkAt(s.list, i + 1))
    && (forall i, j | 0 <= i < j < |s.list| :: s.list[i] != s.list[j])
    && (forall p :: p in s.list <==> s.Place(p).Listed?)
  }

  /// A slot of the pool still holds its producer unless its ticket has been taken and used.
  predicate Unused(s: State, i: nat) {
    i < |s.pool| && (s.nextIndex <= i || (i in s.taker && s.taker[i] in s.pc && s.pc[s.taker[i]] == TakeFromPool(i)))
  }

  ghost predicate SlotOk(s: State, i: nat) {
    if Unused(s, i) then s.PoolAt(i).Some? && s.Place(s.PoolAt(i).value) == Pooled(i) else s.PoolAt(i).None?
  }

  ghost predicate ProducerOk(s: State, p: Producer) {
    && (s.Place(p).Nowhere? <==> s.created <= p)
    && (p in s.explicits ==> p < s.created)
    && (p in s.owner ==> s.Place(p).Listed?)
    && match s.Place(p)
       case Nowhere => true
       case Pooled(i) => Unused(s, i) && s.PoolAt(i) == Some(p) && s.Inactive(p) && p !in s.explicits
       case Carried(t) => t in s.pc && Carries(s.pc[t], p)
       case Listed => s.Inactive(p) <==> p !in s.owner
  }

  predicate PcOk(s: State, t: Thread)
    requires t in s.pc
  {
    match s.pc[t]
    case Look(_, at) => at.Some? ==> s.Place(at.value).Listed?
    case Catch(e, p) => s.Place(p).Listed? && (p in s.explicits) == e
    case TakeFromPool(i) => i < s.nextIndex && i < |s.pool| && i in s.taker && s.taker[i] == t
    case Activate(p) => s.Place(p) == Carried(t)
    case CountUp(p) => s.Place(p) == Carried(t) && !s.Inactive(p)
    case LoadTail(p) => s.Place(p) == Carried(t) && !s.Inactive(p)
    case StoreNext(p, _) => s.Place(p) == Carried(t) && !s.Inactive(p)
    case Link(p, prev) => s.Place(p) == Carried(t) && !s.Inactive(p) && s.Next(p) == prev
    case _ => true
  }

  predicate Counted(p: PC) {
    p.LoadTail? || p.StoreNext? || p.Link?
  }

  function Adders(pc: map<Thread, PC>): set<Thread> {
    set t | t in pc && Counted(pc[t])
  }

  function Fetchers(pc: map<Thread, PC>): set<Thread> {
    set t | t in pc && pc[t].TakeTicket?
  }

  /// The ticket counter cannot run away: beyond the pool only threads that looked before can raise it.
  predicate CountersOk(s: State) {
    && s.count == (|s.list| + |Adders(s.pc)|) % WORD
    && s.nextIndex + |Fetchers(s.pc)| <= |s.pool| + |s.pc|
    && |s.pool| + |s.pc| < WORD
  }

  ghost predicate Inv(s: State) {
    && ListOk(s)
    && CountersOk(s)
    && (forall i: nat :: SlotOk(s, i))
    && (forall p: Producer :: ProducerOk(s, p))
    && (forall t <- s.pc :: PcOk(s, t))
  }

  lemma AddersAfter(pc: map<Thread, PC>, t: Thread, p: PC)
    requires t in pc
    ensures |Adders(pc[t := p])| == |Adders(pc)| + (if Counted(p) then 1 else 0) - (if Counted(pc[t]) then 1 else 0)
  {
    assert Adders(pc[t := p]) == if Counted(p) then Adders(pc) + {t} else Adders(pc) - {t};
    assert t in Adders(pc) <==> Counted(pc[t]);
  }

  lemma FetchersAfter(pc: map<Thread, PC>, t: Thread, p: PC)
    requires t in pc
    ensures |Fetchers(pc[t := p])| ==
              |Fetchers(pc)| + (if p.TakeTicket? then 1 else 0) - (if pc[t].TakeTicket? then 1 else 0)
  {
    assert Fetchers(pc[t := p]) == if p.TakeTicket? then Fetchers(pc) + {t} else Fetchers(pc) - {t};
    assert t in Fetchers(pc) <==> pc[t].TakeTicket?;
  }

  lemma FetchersBound(pc: map<Thread, PC>, t: Thread, p: PC)
    ensures |Fetchers(pc)| <= |pc|
    ensures t in pc ==> |pc[t := p]| == |pc| && pc[t := p].Keys == pc.Keys
  {
    if t in pc { assert pc[t := p].Keys == pc.Keys; }
    assert pc.Keys == Fetchers(pc) + (pc.Keys - Fetchers(pc));
  }

  /// A step of `t` that concerns at most producer `n`, and not the pool.
  ghost predicate Touches(s: State, s': State, t: Thread, n: Producer) {
    && t in s.pc && t in s'.pc && s'.pc == s.pc[t := s'.pc[t]]
    && s'.pool == s.pool && s'.taker == s.taker && s'.nextIndex == s.nextIndex
    && !s.pc[t].TakeTicket? && !s.pc[t].TakeFromPool? && !s'.pc[t].TakeFromPool?
    && (forall p: Producer | p != n :: s'.Next(p) == s.Next(p))
    && (forall p: Producer | p != n :: s'.Inactive(p) == s.Inactive(p))
    && (forall p: Producer | p != n :: s'.Place(p) == s.Place(p))
    && (forall p: Producer | p != n :: p in s'.owner <==> p in s.owner)
    && (forall p: Producer | p != n :: p in s'.explicits <==> p in s.explicits)
    && s.created <= s'.created && (s.created < s'.created ==> n == s.created == s'.created - 1)
    && OnlyCarries(s.pc[t], n) && OnlyCarries(s'.pc[t], n)
    && (s.Place(n).Pooled? || s'.Place(n).Pooled? ==> s'.Place(n) == s.Place(n))
    && (s.Place(n).Listed? ==>
          s'.Place(n).Listed? && s'.Next(n) == s.Next(n) && (n in s'.explicits <==> n in s.explicits))
    && (s.Place(n).Carried? ==>
          (s.Place(n).thread == t || (s'.Place(n) == s.Place(n) && s'.Next(n) == s.Next(n)
              && s'.Inactive(n) == s.Inactive(n))))
  }

  predicate OnlyCarries(p: PC, n: Producer) {
    p.Activate? || p.CountUp? || p.LoadTail? || p.StoreNext? || p.Link? ==> p.producer == n
  }

  lemma OtherPc(s: State, s': State, t: Thread, n: Producer, u: Thread)
    requires Touches(s, s', t, n) && u in s.pc && u != t && PcOk(s, u)
    ensures PcOk(s', u)
  {}

  lemma OtherProducer(s: State, s': State, t: Thread, n: Producer, p: Producer)
    requires Touches(s, s', t, n) && p != n && ProducerOk(s, p)
    ensures ProducerOk(s', p)
  {}

  lemma SameSlots(s: State, s': State, t: Thread, n: Producer, i: nat)
    requires Touches(s, s', t, n) && SlotOk(s, i)
    ensures SlotOk(s', i) && Unused(s', i) == Unused(s, i)
  {}

  /// A step that keeps the invariant where it acts keeps it everywhere.
  lemma Frame(s: State, s': State, t: Thread, n: Producer)
    requires Inv(s) && Touches(s, s', t, n)
    requires ListOk(s') && CountersOk(s') && ProducerOk(s', n) && PcOk(s', t)
    ensures Inv(s')
  {
    hide Touches, SlotOk, ProducerOk, ListOk, CountersOk, PcOk;
    assert s'.pc.Keys == s.pc.Keys by { TouchesThreads(s, s', t, n); }
    forall i: nat ensures SlotOk(s', i) { SameSlots(s, s', t, n, i); }
    forall p: Producer ensures ProducerOk(s', p) { if p != n { OtherProducer(s, s', t, n, p); } }
    forall u | u in s'.pc ensures PcOk(s', u) { if u != t { OtherPc(s, s', t, n, u); } }
  }

  lemma TouchesThreads(s: State, s': State, t: Thread, n: Producer)
    requires Touches(s, s', t, n)
    ensures s'.pc.Keys == s.pc.Keys && t in s.pc
  {}

  ghost predicate LocalInv(s: State, t: Thread, n: Producer) {
    && t in s.pc && PcOk(s, t) && ProducerOk(s, n)
    && (forall i | s.Place(n) == Pooled(i) :: SlotOk(s, i))
  }

  predicate SameList(s: State, s': State) {
    s'.tail == s.tail && s'.list == s.list
  }

  lemma ListKept(s: State, s': State, t: Thread, n: Producer)
    requires ListOk(s) && Touches(s, s', t, n) && SameList(s, s') && (s'.Place(n).Listed? <==> s.Place(n).Listed?)
    ensures ListOk(s')
  {
    forall i | 0 <= i < |s'.list| ensures s'.Next(s'.list[i]) == LinkAt(s'.list, i + 1) {
      assert s.list[i] in s.list;
      assert s.Next(s.list[i]) == LinkAt(s.list, i + 1);
    }
  }

  lemma CountersKept(s: State, s': State, t: Thread)
    requires CountersOk(s) && t in s.pc && t in s'.pc && s'.pc == s.pc[t := s'.pc[t]] && s'.pool == s.pool
    requires s'.nextIndex == s.nextIndex
              && |s'.list| == |s.list| + (if s.pc[t].Link? && !Counted(s'.pc[t]) then 1 else 0)
    requires s'.count == (if s.pc[t].CountUp? then (s.count + 1) % WORD else s.count)
    requires !s.pc[t].TakeTicket? && (s'.pc[t].TakeTicket? ==> s.nextIndex < |s.pool|)
    requires Counted(s'.pc[t]) <==>
              s.pc[t].CountUp? || s.pc[t].LoadTail? || s.pc[t].StoreNext? || (s.pc[t].Link? && |s'.list| == |s.list|)
    ensures CountersOk(s')
  {
    hide Adders, Fetchers;
    AddersAfter(s.pc, t, s'.pc[t]);
    FetchersAfter(s.pc, t, s'.pc[t]);
    FetchersBound(s'.pc, t, s'.pc[t]);
    FetchersBound(s.pc, t, s'.pc[t]);
  }

  /// The one producer a step concerns.
  function Target(s: State, p: PC, q: Request): Producer {
    match p
    case Idle => if q.Release? then q.producer else 0
    case Catch(_, n) => n
    case Activate(n) => n
    case Create(_) => s.created
    case CountUp(n) => n
    case LoadTail(n) => n
    case StoreNext(n, _) => n
    case Link(n, _) => n
    case _ => 0
  }

  ghost predicate StepOk(s: State, s': State, t: Thread, n: Producer) {
    && Touches(s, s', t, n) && ProducerOk(s', n) && PcOk(s', t)
    && ListOk(s') && CountersOk(s')
  }

  lemma ReleaseStep(s: State, t: Thread, q: Request)
    requires t in s.pc && LocalInv(s, t, Target(s, s.pc[t], q)) && s.pc[t].Idle? && ListOk(s) && CountersOk(s)
    ensures StepOk(s, Step(s, t, q), t, Target(s, s.pc[t], q))
  {
    hide ListOk, CountersOk;
    var s' := Step(s, t, q);
    assert s.pc == s.pc[t := s.pc[t]];
    CountersKept(s, s', t);
    ListKept(s, s', t, Target(s, s.pc[t], q));
  }

  predicate Searching(p: PC) {
    p.LoadList? || p.Look? || p.CheckPool? || p.Catch?
  }

  /// A thread that has no producer moves.
  lemma SearchGoesOn(s: State, t: Thread, n: Producer, p: PC)
    requires LocalInv(s, t, n) && Searching(s.pc[t]) && (Searching(p) || p.TakeTicket? || p.Create?)
    ensures Touches(s, s.Goto(t, p), t, n) && ProducerOk(s.Goto(t, p), n)
  {}

  lemma LookLocal(s: State, t: Thread, q: Request)
    requires LocalInv(s, t, 0) && (s.pc[t].LoadList? || s.pc[t].Look? || s.pc[t].CheckPool?)
    requires s.tail.Some? ==> s.Place(s.tail.value).Listed?
    requires s.pc[t].Look? && s.pc[t].at.Some? ==>
              s.Next(s.pc[t].at.value).None? || s.Place(s.Next(s.pc[t].at.value).value).Listed?
    ensures var s' := Step(s, t, q);
            Touches(s, s', t, 0) && ProducerOk(s', 0) && PcOk(s', t)
            && s' == s.(pc := s'.pc) && !Counted(s'.pc[t]) && (s'.pc[t].TakeTicket? ==> s.nextIndex < |s.pool|)
  {
    hide Touches, ProducerOk;
    SearchGoesOn(s, t, 0, Step(s, t, q).pc[t]);
  }

  lemma LookStep(s: State, t: Thread, q: Request)
    requires LocalInv(s, t, 0) && (s.pc[t].LoadList? || s.pc[t].Look? || s.pc[t].CheckPool?) && ListOk(s)
              && CountersOk(s)
    ensures StepOk(s, Step(s, t, q), t, 0)
  {
    hide ListOk, CountersOk, Step, ProducerOk;
    NextIsListed(s, if s.pc[t].Look? then s.pc[t].at else None);
    LookLocal(s, t, q);
    CountersKept(s, Step(s, t, q), t);
    ListKept(s, Step(s, t, q), t, 0);
  }

  /// From the tail and from listed producers one gets to listed producers.
  lemma NextIsListed(s: State, at: Option<Producer>)
    requires ListOk(s)
    ensures s.tail.Some? ==> s.Place(s.tail.value).Listed?
    ensures at.Some? && s.Place(at.value).Listed? ==> s.Next(at.value).None? || s.Place(s.Next(at.value).value).Listed?
  {
    if s.tail.Some? { assert s.list[0] in s.list; }
    if at.Some? && s.Place(at.value).Listed? {
      assert at.value in s.list;
      var i :| 0 <= i < |s.list| && s.list[i] == at.value;
      assert s.Next(s.list[i]) == LinkAt(s.list, i + 1);
      if i + 1 < |s.list| { assert s.list[i + 1] in s.list; }
    }
  }

  lemma CatchLocal(s: State, t: Thread, q: Request)
    requires t in s.pc && LocalInv(s, t, Target(s, s.pc[t], q)) && s.pc[t].Catch? && s.Inactive(s.pc[t].producer)
    ensures var s', n := Step(s, t, q), s.pc[t].producer;
            Touches(s, s', t, n) && ProducerOk(s', n) && PcOk(s', t)
  {}

  lemma CatchStep(s: State, t: Thread, q: Request)
    requires t in s.pc && LocalInv(s, t, Target(s, s.pc[t], q)) && s.pc[t].Catch? && ListOk(s) && CountersOk(s)
    ensures StepOk(s, Step(s, t, q), t, Target(s, s.pc[t], q))
  {
    hide ListOk, CountersOk, Touches, ProducerOk;
    var s', n := Step(s, t, q), s.pc[t].producer;
    NextIsListed(s, Some(n));
    if s.Inactive(n) { CatchLocal(s, t, q); } else { SearchGoesOn(s, t, n, s'.pc[t]); }
    CountersKept(s, s', t);
    ListKept(s, s', t, n);
  }

  lemma CarryStep(s: State, t: Thread, q: Request)
    requires t in s.pc && LocalInv(s, t, Target(s, s.pc[t], q)) && ListOk(s) && CountersOk(s)
    requires s.pc[t].Activate? || s.pc[t].CountUp? || s.pc[t].LoadTail? || s.pc[t].StoreNext?
    ensures StepOk(s, Step(s, t, q), t, Target(s, s.pc[t], q))
  {
    hide ListOk, CountersOk;
    var s' := Step(s, t, q);
    CountersKept(s, s', t);
    ListKept(s, s', t, s.pc[t].producer);
  }

  lemma CreateStep(s: State, t: Thread, q: Request)
    requires LocalInv(s, t, s.created) && s.pc[t].Create? && ListOk(s) && CountersOk(s)
    ensures StepOk(s, Step(s, t, q), t, s.created)
  {
    hide ListOk, CountersOk;
    var s' := Step(s, t, q);
    assert s.pc == s.pc[t := s.pc[t]];
    CountersKept(s, s', t);
    ListKept(s, s', t, s.created);
  }

  lemma LinksIn(s: State, t: Thread, q: Request)
    requires t in s.pc && LocalInv(s, t, Target(s, s.pc[t], q)) && s.pc[t].Link? && s.tail == s.pc[t].prev
    ensures var s', n := Step(s, t, q), s.pc[t].producer;
            Touches(s, s', t, n) && ProducerOk(s', n) && PcOk(s', t)
  {}

  lemma LinkAgain(s: State, t: Thread, q: Request)
    requires t in s.pc && LocalInv(s, t, Target(s, s.pc[t], q)) && s.pc[t].Link? && s.tail != s.pc[t].prev
    ensures var s', n := Step(s, t, q), s.pc[t].producer;
            Touches(s, s', t, n) && ProducerOk(s', n) && PcOk(s', t)
  {}

  lemma ListLinked(s: State, s': State, n: Producer)
    requires ListOk(s) && s'.tail == Some(n) && s'.list == [n] + s.list && s'.next == s.next && s.Next(n) == s.tail
    requires s.Place(n).Carried? && s'.place == s.place[n := Listed]
    ensures ListOk(s')
  {
    forall i | 0 <= i < |s'.list| ensures s'.Next(s'.list[i]) == LinkAt(s'.list, i + 1) {
      if i > 0 { assert s.Next(s.list[i - 1]) == LinkAt(s.list, i); }
    }
  }

  lemma LinkStep(s: State, t: Thread, q: Request)
    requires t in s.pc && LocalInv(s, t, Target(s, s.pc[t], q)) && s.pc[t].Link? && ListOk(s) && CountersOk(s)
    ensures StepOk(s, Step(s, t, q), t, Target(s, s.pc[t], q))
  {
    hide ListOk, CountersOk, ProducerOk, Touches;
    var s', n := Step(s, t, q), s.pc[t].producer;
    if s.tail == s.pc[t].prev { LinksIn(s, t, q); ListLinked(s, s', n); }
        else { LinkAgain(s, t, q); ListKept(s, s', t, n); }
    CountersKept(s, s', t);
  }

  // ---- the pool

  lemma SameLinks(s: State, s': State)
    requires ListOk(s) && s'.tail == s.tail && s'.list == s.list && s'.next == s.next
    requires forall p: Producer :: s'.Place(p).Listed? <==> s.Place(p).Listed?
    ensures ListOk(s')
  {
    forall i | 0 <= i < |s'.list| ensures s'.Next(s'.list[i]) == LinkAt(s'.list, i + 1) {
      assert s.Next(s.list[i]) == LinkAt(s.list, i + 1);
    }
  }

  lemma TicketCounters(s: State, t: Thread, q: Request)
    requires t in s.pc && s.pc[t].TakeTicket? && CountersOk(s)
    ensures CountersOk(Step(s, t, q)) && Step(s, t, q).nextIndex == s.nextIndex + 1
  {
    hide Adders, Fetchers;
    var s' := Step(s, t, q);
    AddersAfter(s.pc, t, s'.pc[t]);
    FetchersAfter(s.pc, t, s'.pc[t]);
    FetchersBound(s.pc, t, s'.pc[t]);
    FetchersBound(s'.pc, t, s'.pc[t]);
  }

  lemma TicketElsewhere(s: State, t: Thread, q: Request, i: nat, p: Producer, u: Thread)
    requires t in s.pc && s.pc[t].TakeTicket? && Step(s, t, q).nextIndex == s.nextIndex + 1
    ensures SlotOk(s, i) ==> SlotOk(Step(s, t, q), i)
    ensures ProducerOk(s, p) ==> ProducerOk(Step(s, t, q), p)
    ensures u in s.pc && PcOk(s, u) ==> u in Step(s, t, q).pc && PcOk(Step(s, t, q), u)
  {}

  lemma TakeTicketStep(s: State, t: Thread, q: Request)
    requires Inv(s) && t in s.pc && s.pc[t].TakeTicket?
    ensures Inv(Step(s, t, q))
  {
    hide ListOk, CountersOk, SlotOk, ProducerOk, PcOk;
    var s' := Step(s, t, q);
    TicketCounters(s, t, q);
    SameLinks(s, s');
    forall i: nat ensures SlotOk(s', i) { TicketElsewhere(s, t, q, i, 0, t); }
    forall p: Producer ensures ProducerOk(s', p) { TicketElsewhere(s, t, q, 0, p, t); }
    forall u | u in s'.pc ensures PcOk(s', u) { TicketElsewhere(s, t, q, 0, 0, u); }
  }

  /// The slot whose ticket a thread holds still has its producer: the assertion in
  /// `recycle_or_create_producer`.
  lemma TicketHasProducer(s: State, t: Thread)
    requires Inv(s) && t in s.pc && s.pc[t].TakeFromPool?
    ensures var i := s.pc[t].ticket; i < |s.pool| && s.PoolAt(i).Some? && s.Place(s.PoolAt(i).value) == Pooled(i)
  {
    hide ListOk, CountersOk, ProducerOk;
    assert PcOk(s, t) && SlotOk(s, s.pc[t].ticket);
  }

  lemma SlotsUsed(s: State, t: Thread, q: Request, i: nat)
    requires t in s.pc && s.pc[t].TakeFromPool? && PcOk(s, t)
    requires var k := s.pc[t].ticket; k < |s.pool| && s.PoolAt(k).Some? && s.Place(s.PoolAt(k).value) == Pooled(k)
    requires SlotOk(s, i)
    ensures SlotOk(Step(s, t, q), i)
  {}

  lemma ProducersUsed(s: State, t: Thread, q: Request, p: Producer)
    requires t in s.pc && s.pc[t].TakeFromPool? && PcOk(s, t)
    requires var k := s.pc[t].ticket; k < |s.pool| && s.PoolAt(k).Some? && s.Place(s.PoolAt(k).value) == Pooled(k)
    requires ProducerOk(s, p)
    ensures ProducerOk(Step(s, t, q), p)
  {}

  lemma ThreadsUsed(s: State, t: Thread, q: Request, u: Thread)
    requires t in s.pc && s.pc[t].TakeFromPool? && PcOk(s, t)
    requires var k := s.pc[t].ticket; k < |s.pool| && s.PoolAt(k).Some? && s.Place(s.PoolAt(k).value) == Pooled(k)
    requires u in s.pc && PcOk(s, u)
    ensures u in Step(s, t, q).pc && PcOk(Step(s, t, q), u)
  {}

  lemma TakeFromPoolStep(s: State, t: Thread, q: Request)
    requires Inv(s) && t in s.pc && s.pc[t].TakeFromPool?
    ensures Inv(Step(s, t, q))
  {
    hide ListOk, CountersOk, SlotOk, ProducerOk, PcOk;
    var s' := Step(s, t, q);
    TicketHasProducer(s, t);
    CountersUsed(s, t, q);
    SameLinks(s, s');
    forall i: nat ensures SlotOk(s', i) { SlotsUsed(s, t, q, i); }
    forall p: Producer ensures ProducerOk(s', p) { ProducersUsed(s, t, q, p); }
    forall u | u in s'.pc ensures PcOk(s', u) { ThreadsUsed(s, t, q, u); }
  }

  lemma CountersUsed(s: State, t: Thread, q: Request)
    requires t in s.pc && s.pc[t].TakeFromPool? && CountersOk(s)
    ensures CountersOk(Step(s, t, q))
  {
    hide Adders, Fetchers;
    var s' := Step(s, t, q);
    assert s.pc == s.pc[t := s.pc[t]];
    AddersAfter(s.pc, t, s'.pc[t]);
    FetchersAfter(s.pc, t, s'.pc[t]);
    FetchersBound(s.pc, t, s'.pc[t]);
  }

  lemma LocalOf(s: State, t: Thread, n: Producer)
    requires Inv(s) && t in s.pc
    ensures LocalInv(s, t, n) && ListOk(s) && CountersOk(s)
  {
    hide ProducerOk, PcOk, SlotOk, ListOk, CountersOk;
  }

  lemma StepKeepsInv(s: State, t: Thread, q: Request)
    requires Inv(s) && t in s.pc
    ensures Inv(Step(s, t, q))
  {
    hide Inv, LocalInv, Touches, ListOk, CountersOk, ProducerOk, PcOk, Step;
    var n := Target(s, s.pc[t], q);
    LocalOf(s, t, n);
    match s.pc[t] {
      case Idle => ReleaseStep(s, t, q);
      case LoadList(_) => LookStep(s, t, q);
      case Look(_, _) => LookStep(s, t, q);
      case Catch(_, _) => CatchStep(s, t, q);
      case CheckPool => LookStep(s, t, q);
      case TakeTicket => TakeTicketStep(s, t, q);
      case TakeFromPool(_) => TakeFromPoolStep(s, t, q);
      case Activate(_) => CarryStep(s, t, q);
      case Create(_) => CreateStep(s, t, q);
      case CountUp(_) => CarryStep(s, t, q);
      case LoadTail(_) => CarryStep(s, t, q);
      case StoreNext(_, _) => CarryStep(s, t, q);
      case Link(_, _) => LinkStep(s, t, q);
    }
    if !s.pc[t].TakeTicket? && !s.pc[t].TakeFromPool? { Frame(s, Step(s, t, q), t, n); }
  }

  // ------------------------------------------------------------- theorems

  /// As the constructor leaves it: producers 0, 1, ... in the pool, none listed.
  ghost predicate Init(s: State) {
    && s.tail == None && s.list == [] && s.next == map[] && s.owner == map[] && s.taker == map[]
    && s.count == 0 && s.nextIndex == 0 && s.explicits == {}
    && s.created == |s.pool| && |s.pool| + |s.pc| < WORD
    && (forall i | 0 <= i < |s.pool| :: s.pool[i] == Some(i))
    && (forall p: Producer :: s.Place(p) == if p < |s.pool| then Pooled(p) else Nowhere)
    && (forall p: Producer | p < |s.pool| :: s.Inactive(p))
    && (forall t <- s.pc :: s.pc[t] == Idle)
  }

  type Schedule = seq<(Thread, Request)>

  function Move(s: State, m: (Thread, Request)): State {
    if m.0 in s.pc then Step(s, m.0, m.1) else s
  }

  function Run(s: State, schedule: Schedule): State
    decreases |schedule|
  {
    if schedule == [] then s else Run(Move(s, schedule[0]), schedule[1..])
  }

  lemma InitHasInv(s: State)
    requires Init(s)
    ensures Inv(s)
  {
    assert Adders(s.pc) == {} && Fetchers(s.pc) == {};
  }

  /// Every interleaving of any number of threads keeps the invariant.
  lemma {:induction false} RunKeepsInv(s: State, schedule: Schedule)
    requires Inv(s)
    ensures Inv(Run(s, schedule))
    decreases |schedule|
  {
    hide Inv, Step;
    if schedule != [] {
      if schedule[0].0 in s.pc { StepKeepsInv(s, schedule[0].0, schedule[0].1); }
      RunKeepsInv(Move(s, schedule[0]), schedule[1..]);
    }
  }

  /// Every producer is on the list at most once, and a listed one is active exactly if it has an
  /// owner; the list is the chain the program can follow from the tail pointer.
  lemma ListedOnce(s: State, schedule: Schedule)
    requires Init(s)
    ensures var e := Run(s, schedule);
            && ListOk(e)
            && (forall p <- e.list :: p < e.created && (!e.Inactive(p) <==> p in e.owner))
            && (forall p <- e.owner :: p in e.list)
  {
    hide SlotOk, CountersOk, Step, PcOk;
    InitHasInv(s);
    RunKeepsInv(s, schedule);
    var e := Run(s, schedule);
    forall p | p in e.list || p in e.owner ensures p < e.created && p in e.list && (!e.Inactive(p) <==> p in e.owner) {
      assert ProducerOk(e, p);
    }
  }

  /// The steps that change who owns a producer.
  lemma OwnerStep(s: State, t: Thread, q: Request)
    requires t in s.pc
    ensures var p := s.pc[t];
            Step(s, t, q).owner ==
              if p.Idle? && q.Release? && q.producer in s.owner && s.owner[q.producer] == t then s.owner - {q.producer}
              else if p.Catch? && s.Inactive(p.producer) then s.owner[p.producer := t]
              else if p.Link? && s.tail == p.prev then s.owner[p.producer := t]
              else s.owner
  {
    hide Step;
    IdleOwner(s, t, q);
    FindOwner(s, t, q);
    PoolOwner(s, t, q);
    LinkOwner(s, t, q);
  }

  lemma IdleOwner(s: State, t: Thread, q: Request)
    requires t in s.pc
    ensures s.pc[t].Idle? ==>
              Step(s, t, q).owner ==
                if q.Release? && q.producer in s.owner && s.owner[q.producer] == t then s.owner - {q.producer} else s.owner
  {}

  lemma FindOwner(s: State, t: Thread, q: Request)
    requires t in s.pc
    ensures s.pc[t].LoadList? || s.pc[t].Look? || s.pc[t].CheckPool? ==> Step(s, t, q).owner == s.owner
    ensures s.pc[t].Catch? ==>
              Step(s, t, q).owner ==
                if s.Inactive(s.pc[t].producer) then s.owner[s.pc[t].producer := t] else s.owner
  {
    hide LookAt, NotFound;
  }

  lemma PoolOwner(s: State, t: Thread, q: Request)
    requires t in s.pc
    ensures s.pc[t].TakeTicket? || s.pc[t].TakeFromPool? || s.pc[t].Activate? || s.pc[t].Create? ==>
              Step(s, t, q).owner == s.owner
  {}

  lemma LinkOwner(s: State, t: Thread, q: Request)
    requires t in s.pc
    ensures s.pc[t].CountUp? || s.pc[t].LoadTail? || s.pc[t].StoreNext? ==> Step(s, t, q).owner == s.owner
    ensures s.pc[t].Link? ==>
              Step(s, t, q).owner == if s.tail == s.pc[t].prev then s.owner[s.pc[t].producer := t] else s.owner
  {}

  /// A thread is given a producer only when nobody owns it, and becomes its one owner; only the
  /// owner gives it up.
  lemma OwnedByOne(s: State, m: (Thread, Request), p: Producer)
    requires Inv(s)
    ensures var e := Move(s, m);
            && (p in e.owner && p !in s.owner ==> e.owner[p] == m.0)
            && (p in s.owner && p in e.owner ==> e.owner[p] == s.owner[p])
            && (p in s.owner && p !in e.owner ==> s.owner[p] == m.0 && m.1 == Release(p))
  {
    hide ListOk, SlotOk, CountersOk, Step;
    if m.0 in s.pc {
      OwnerStep(s, m.0, m.1);
      assert PcOk(s, m.0) && ProducerOk(s, p);
    }
  }

  ghost predicate Quiescent(s: State) {
    forall t <- s.pc :: s.pc[t] == Idle
  }

  /// With no call in progress `producerCount` is the length of the list, and every producer ever
  /// made is either on the list or in the part of the pool that has not been handed out.
  lemma EveryProducerAccounted(s: State, schedule: Schedule, p: Producer)
    requires Init(s) && Quiescent(Run(s, schedule))
    ensures var e := Run(s, schedule);
            && e.count == |e.list| % WORD
            && (p < e.created ==> (p in e.list) != (exists i :: e.nextIndex <= i < |e.pool| && e.pool[i] == Some(p)))
            && (p >= e.created ==> p !in e.list && !(exists i :: e.nextIndex <= i < |e.pool| && e.pool[i] == Some(p)))
  {
    hide Step;
    InitHasInv(s);
    RunKeepsInv(s, schedule);
    AtRest(Run(s, schedule), p);
  }

  lemma AtRest(e: State, p: Producer)
    requires Inv(e) && Quiescent(e)
    ensures e.count == |e.list| % WORD
    ensures p < e.created ==> (p in e.list) != (exists i :: e.nextIndex <= i < |e.pool| && e.pool[i] == Some(p))
    ensures p >= e.created ==> p !in e.list && !(exists i :: e.nextIndex <= i < |e.pool| && e.pool[i] == Some(p))
    ensures forall i: nat | e.nextIndex <= i < |e.pool| :: e.pool[i].Some? && e.Place(e.pool[i].value) == Pooled(i)
  {
    assert Adders(e.pc) == {};
    assert ProducerOk(e, p);
    forall i: nat | e.nextIndex <= i < |e.pool| ensures e.pool[i].Some? && e.Place(e.pool[i].value) == Pooled(i) {
      assert SlotOk(e, i);
    }
  }

  // ---- destruction

  function Values(pool: seq<Option<Producer>>): seq<Producer>
    requires forall x <- pool :: x.Some?
  {
    if pool == [] then [] else Values(pool[..|pool| - 1]) + [pool[|pool| - 1].value]
  }

  lemma {:induction false} ValuesAt(pool: seq<Option<Producer>>)
    requires forall x <- pool :: x.Some?
    ensures |Values(pool)| == |pool| && forall i | 0 <= i < |pool| :: Values(pool)[i] == pool[i].value
  {
    if pool != [] { ValuesAt(pool[..|pool| - 1]); }
  }

  /// The first loop of the destructor.
  method DestroyList(tail: Option<Producer>, next: map<Producer, Option<Producer>>,
                     ghost list: seq<Producer>) returns (destroyed: seq<Producer>)
    requires tail == LinkAt(list, 0)
    requires forall i | 0 <= i < |list| :: list[i] in next && next[list[i]] == LinkAt(list, i + 1)
    ensures destroyed == list
  {
    destroyed := [];
    var ptr := tail;
    ghost var k := 0;
    while ptr != None
      invariant 0 <= k <= |list| && ptr == LinkAt(list, k) && destroyed == list[..k]
      decreases |list| - k
    {
      assert ptr.value == list[k];
      var following := next[ptr.value];
      destroyed := destroyed + [ptr.value];
      ptr := following;
      k := k + 1;
    }
  }

  /// The second loop of the destructor takes the tickets nobody has used.
  method DestroyPool(pool: seq<Option<Producer>>, nextIndex: nat) returns (destroyed: seq<Producer>)
    requires forall i | nextIndex <= i < |pool| :: pool[i].Some?
    ensures destroyed == if nextIndex <= |pool| then Values(pool[nextIndex..]) else []
  {
    destroyed := [];
    var index := nextIndex;
    var i := index;
    index := index + 1;
    while i < |pool|
      invariant index == i + 1 && nextIndex <= i && (i <= |pool| || i == nextIndex)
      invariant destroyed == if i <= |pool| then Values(pool[nextIndex..i]) else []
    {
      assert pool[nextIndex..i + 1][..i - nextIndex] == pool[nextIndex..i];
      destroyed := destroyed + [pool[i].value];
      i := index;
      index := index + 1;
    }
    assert i <= |pool| ==> pool[nextIndex..i] == pool[nextIndex..];
  }

  /// The destructor: the list first, then what is left of the pool.
  method DestroyProducers(tail: Option<Producer>, next: map<Producer, Option<Producer>>, pool: seq<Option<Producer>>,
                          nextIndex: nat,
                          ghost list: seq<Producer>) returns (destroyed: seq<Producer>)
    requires tail == LinkAt(list, 0)
    requires forall i | 0 <= i < |list| :: list[i] in next && next[list[i]] == LinkAt(list, i + 1)
    requires forall i | nextIndex <= i < |pool| :: pool[i].Some?
    ensures destroyed == list + (if nextIndex <= |pool| then Values(pool[nextIndex..]) else [])
  {
    var listed := DestroyList(tail, next, list);
    var unused := DestroyPool(pool, nextIndex);
    destroyed := listed + unused;
  }

  /// The order in which the destructor destroys producers.
  function Destroyed(e: State): seq<Producer> {
    var rest := if e.nextIndex <= |e.pool| then e.pool[e.nextIndex..] else [];
    if forall x <- rest :: x.Some? then e.list + Values(rest) else e.list
  }

  /// Run at rest, it destroys every producer ever made, each exactly once.
  lemma DestroysEachOnce(s: State, schedule: Schedule, p: Producer)
    requires Init(s) && Quiescent(Run(s, schedule))
    ensures var e := Run(s, schedule);
            && (forall i | 0 <= i < |e.list| :: e.Next(e.list[i]) == LinkAt(e.list, i + 1))
            && (forall i | e.nextIndex <= i < |e.pool| :: e.pool[i].Some?)
            && Destroyed(e) == e.list + (if e.nextIndex <= |e.pool| then Values(e.pool[e.nextIndex..]) else [])
            && multiset(Destroyed(e))[p] == if p < e.created then 1 else 0
  {
    hide Inv, Init, Quiescent, Move, Run, Destroyed, Values, LinkAt;
    InitHasInv(s);
    RunKeepsInv(s, schedule);
    ListAtRest(Run(s, schedule));
    DestroyedAtRest(Run(s, schedule), p);
  }

  lemma ListAtRest(e: State)
    requires Inv(e)
    ensures forall i | 0 <= i < |e.list| :: e.Next(e.list[i]) == LinkAt(e.list, i + 1)
    ensures forall i, j | 0 <= i < j < |e.list| :: e.list[i] != e.list[j]
  {}

  lemma DestroyedAtRest(e: State, p: Producer)
    requires Inv(e) && Quiescent(e)
    ensures forall i | e.nextIndex <= i < |e.pool| :: e.pool[i].Some?
    ensures Destroyed(e) == e.list + (if e.nextIndex <= |e.pool| then Values(e.pool[e.nextIndex..]) else [])
    ensures multiset(Destroyed(e))[p] == if p < e.created then 1 else 0
  {
    hide Inv, Quiescent, LinkAt;
    AtRest(e, p);
    ListAtRest(e);
    OnceInList(e.list, p);
    if e.nextIndex <= |e.pool| {
      RestOnce(e, p);
    } else {
      assert Destroyed(e) == e.list;
    }
  }

  lemma RestOnce(e: State, p: Producer)
    requires e.nextIndex <= |e.pool|
    requires forall i: nat | e.nextIndex <= i < |e.pool| :: e.pool[i].Some? && e.Place(e.pool[i].value) == Pooled(i)
    ensures var rest := e.pool[e.nextIndex..];
            && (forall x <- rest :: x.Some?)
            && multiset(Values(rest))[p] == if
                  exists i :: e.nextIndex <= i < |e.pool| && e.pool[i] == Some(p) then 1 else 0
  {
    var rest := e.pool[e.nextIndex..];
    forall i | 0 <= i < |rest| ensures rest[i].Some? && e.Place(rest[i].value) == Pooled(e.nextIndex + i) {
      assert rest[i] == e.pool[e.nextIndex + i];
    }
    ValuesAt(rest);
    forall i, j | 0 <= i < j < |rest| ensures Values(rest)[i] != Values(rest)[j] {
      assert e.Place(rest[i].value) != e.Place(rest[j].value);
    }
    OnceInList(Values(rest), p);
    if p in Values(rest) {
      var i :| 0 <= i < |rest| && Values(rest)[i] == p;
      assert e.pool[e.nextIndex + i] == Some(p);
    }
    if i :| e.nextIndex <= i < |e.pool| && e.pool[i] == Some(p) {
      assert Values(rest)[i - e.nextIndex] == p;
    }
  }

  lemma {:induction false} OnceInList(l: seq<Producer>, p: Producer)
    requires forall i, j | 0 <= i < j < |l| :: l[i] != l[j]
    ensures multiset(l)[p] == if p in l then 1 else 0
  {
    if l != [] {
      var n := |l| - 1;
      OnceInList(l[..n], p);
      assert l == l[..n] + [l[n]];
    }
  }
}
