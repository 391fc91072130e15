/// The bounded multi-producer, multi-consumer queue of tickets and turns (MPMCQueue.h), any
/// number of threads, one atomic operation per step.
///
/// Tickets are natural numbers.  `pushed`, `popped`, `pushers` and `poppers` are history
/// variables, by ticket.
module MpmcQueue {
  import Index

  type Thread = nat

  type Capacity = c: nat | c > 0 witness 1

  /// The storage of a slot.
  datatype Cell<T> = Raw | Constructed(value: T) | MovedFrom

  datatype PC<T> =
    | Idle
    // emplace and try_emplace
    | TakeHead(value: T)
    | AwaitFree(ticket: nat, value: T)
    | LoadHead(value: T)
    | CheckFree(ticket: nat, value: T)
    | CasHead(ticket: nat, value: T)
    | ReloadHead(ticket: nat, value: T)
    | Construct(ticket: nat, value: T)
    | StoreFilled(ticket: nat)
    // pop and try_pop
    | TakeTail
    | AwaitFilled(ticket: nat)
    | LoadTail
    | CheckFilled(ticket: nat)
    | CasTail(ticket: nat)
    | ReloadTail(ticket: nat)
    | MoveOut(ticket: nat)
    | Destroy(ticket: nat)
    | StoreFree(ticket: nat)

  datatype State<T> = State(
    capacity: Capacity,
    head: nat,
    tail: nat,
    turns: seq<nat>,
    cells: seq<Cell<T>>,
    pc: map<Thread, PC<T>>,
    // history
    pushed: seq<T>,
    popped: map<nat, T>,
    pushers: seq<Thread>,
    poppers: seq<Thread>)
  {
    function Goto(u: Thread, p: PC<T>): State<T> { this.(pc := pc[u := p]) }
    function Pc(u: Thread): PC<T> { if u in pc then pc[u] else Idle }

    function TurnOf(t: nat): nat { TurnIn(turns, Idx(t, capacity)) }
    function CellOf(t: nat): Cell<T> { CellIn(cells, Idx(t, capacity)) }

    function SetTurn(t: nat, turn: nat): State<T> {
      if Idx(t, capacity) < |turns| then this.(turns := turns[Idx(t, capacity) := turn]) else this
    }
    function SetCell(t: nat, c: Cell<T>): State<T> {
      if Idx(t, capacity) < |cells| then this.(cells := cells[Idx(t, capacity) := c]) else this
    }
  }

  function Idx(t: nat, c: Capacity): nat { t % c }

  function Turn(t: nat, c: Capacity): nat { t / c }

  function TurnIn(turns: seq<nat>, i: nat): nat { if i < |turns| then turns[i] else 0 }

  function CellIn<T>(cells: seq<Cell<T>>, i: nat): Cell<T> { if i < |cells| then cells[i] else Raw }

  datatype Request<T> = Emplace(value: T) | TryEmplace(value: T) | Pop | TryPop | Go

  // ---------------------------------------------------------------- steps

  /// History: `u` gets the next ticket to push with.
  function PushTicket<T>(s: State<T>, u: Thread, v: T): State<T> {
    s.(head := s.head + 1, pushed := s.pushed + [v], pushers := s.pushers + [u])
  }

  function PopTicket<T>(s: State<T>, u: Thread): State<T> {
    s.(tail := s.tail + 1, poppers := s.poppers + [u])
  }

  function Step<T>(s: State<T>, u: Thread, q: Request<T>): State<T> {
    var c := s.capacity;
    match s.Pc(u)
    case Idle =>
      (match q
       case Emplace(v) => s.Goto(u, TakeHead(v))
       case TryEmplace(v) => s.Goto(u, LoadHead(v))
       case Pop => s.Goto(u, TakeTail)
       case TryPop => s.Goto(u, LoadTail)
       case Go => s)
    case TakeHead(v) => PushTicket(s, u, v).Goto(u, AwaitFree(s.head, v))
    case AwaitFree(t, v) => if Turn(t, c) * 2 != s.TurnOf(t) then s else s.Goto(u, Construct(t, v))
    case LoadHead(v) => s.Goto(u, CheckFree(s.head, v))
    case CheckFree(t, v) => s.Goto(u, if Turn(t, c) * 2 == s.TurnOf(t) then CasHead(t, v) else ReloadHead(t, v))
    case CasHead(t, v) => if s.head == t then PushTicket(s, u, v).Goto(u, Construct(t, v))
        else s.Goto(u, CheckFree(s.head, v))
    case ReloadHead(t, v) => s.Goto(u, if s.head == t then Idle else CheckFree(s.head, v))
    case Construct(t, v) => s.SetCell(t, Constructed(v)).Goto(u, StoreFilled(t))
    case StoreFilled(t) => s.SetTurn(t, Turn(t, c) * 2 + 1).Goto(u, Idle)
    case TakeTail => PopTicket(s, u).Goto(u, AwaitFilled(s.tail))
    case AwaitFilled(t) => if Turn(t, c) * 2 + 1 != s.TurnOf(t) then s else s.Goto(u, MoveOut(t))
    case LoadTail => s.Goto(u, CheckFilled(s.tail))
    case CheckFilled(t) => s.Goto(u, if Turn(t, c) * 2 + 1 == s.TurnOf(t) then CasTail(t) else ReloadTail(t))
    case CasTail(t) => if s.tail == t then PopTicket(s, u).Goto(u, MoveOut(t)) else s.Goto(u, CheckFilled(s.tail))
    case ReloadTail(t) => s.Goto(u, if s.tail == t then Idle else CheckFilled(s.tail))
    case MoveOut(t) =>
      (if s.CellOf(t).Constructed? then s.(popped := s.popped[t := s.CellOf(t).value]) else s)
      .SetCell(t, MovedFrom).Goto(u, Destroy(t))
    case Destroy(t) => s.SetCell(t, Raw).Goto(u, StoreFree(t))
    case StoreFree(t) => s.SetTurn(t, Turn(t, c) * 2 + 2).Goto(u, Idle)
  }

  // ------------------------------------------------------------ invariant

  /// The push with ticket t is complete.
  predicate Filled(turns: seq<nat>, c: Capacity, t: nat) {
    TurnIn(turns, Idx(t, c)) > 2 * Turn(t, c)
  }

  /// The pop with ticket t is complete.
  predicate Emptied(turns: seq<nat>, c: Capacity, t: nat) {
    TurnIn(turns, Idx(t, c)) > 2 * Turn(t, c) + 1
  }

  predicate Pushing<T>(p: PC<T>, t: nat) {
    (p.AwaitFree? || p.Construct? || p.StoreFilled?) && p.ticket == t
  }

  predicate Popping<T>(p: PC<T>, t: nat) {
    (p.AwaitFilled? || p.MoveOut? || p.Destroy? || p.StoreFree?) && p.ticket == t
  }

  predicate PusherIs<T>(s: State<T>, t: nat) {
    t < |s.pushers| && Pushing(s.Pc(s.pushers[t]), t)
  }

  predicate PopperIs<T>(s: State<T>, t: nat) {
    t < |s.poppers| && Popping(s.Pc(s.poppers[t]), t)
  }

  /// A ticket has been given out and its push is not complete, or the thread it was given to is at work on it.
  ghost predicate TicketOk<T>(s: State<T>, t: nat) {
    && (Filled(s.turns, s.capacity, t) ==> t < s.head)
    && (Emptied(s.turns, s.capacity, t) ==> t < s.tail && t in s.popped)
    && (t < s.head && !Filled(s.turns, s.capacity, t) ==> PusherIs(s, t))
    && (t < s.tail && !Emptied(s.turns, s.capacity, t) ==> PopperIs(s, t))
    && (t in s.popped ==> t < s.tail && t < |s.pushed| && s.popped[t] == s.pushed[t])
  }

  predicate OwnsPush<T>(s: State<T>, t: nat, u: Thread) {
    t < |s.pushers| && s.pushers[t] == u
  }

  predicate OwnsPop<T>(s: State<T>, t: nat, u: Thread) {
    t < |s.poppers| && s.poppers[t] == u
  }

  ghost predicate IsPushed<T>(s: State<T>, t: nat, v: T) {
    t < |s.pushed| && s.pushed[t] == v
  }

  /// The slot of t holds what was pushed with t.
  ghost predicate HoldsPushed<T>(s: State<T>, t: nat) {
    t < |s.pushed| && s.CellOf(t) == Constructed(s.pushed[t])
  }

  ghost predicate PcOk<T>(s: State<T>, u: Thread) {
    var c := s.capacity;
    match s.Pc(u)
    case AwaitFree(t, v) => OwnsPush(s, t, u) && !Filled(s.turns, c, t) && IsPushed(s, t, v)
    case CheckFree(t, _) => t <= s.head
    case ReloadHead(t, _) => t <= s.head
    case CasHead(t, _) => t <= s.head && s.TurnOf(t) >= 2 * Turn(t, c)
    case Construct(t, v) => OwnsPush(s, t, u) && s.TurnOf(t) == 2 * Turn(t, c) && IsPushed(s, t, v)
        && s.CellOf(t) == Raw
    case StoreFilled(t) => OwnsPush(s, t, u) && s.TurnOf(t) == 2 * Turn(t, c) && HoldsPushed(s, t)
    case AwaitFilled(t) => OwnsPop(s, t, u) && !Emptied(s.turns, c, t) && t !in s.popped
    case CheckFilled(t) => t <= s.tail
    case ReloadTail(t) => t <= s.tail
    case CasTail(t) => t <= s.tail && s.TurnOf(t) >= 2 * Turn(t, c) + 1
    case MoveOut(t) => OwnsPop(s, t, u) && s.TurnOf(t) == 2 * Turn(t, c) + 1 && t !in s.popped && HoldsPushed(s, t)
    case Destroy(t) => OwnsPop(s, t, u) && s.TurnOf(t) == 2 * Turn(t, c) + 1 && t in s.popped
        && s.CellOf(t) == MovedFrom
    case StoreFree(t) => OwnsPop(s, t, u) && s.TurnOf(t) == 2 * Turn(t, c) + 1 && t in s.popped && s.CellOf(t) == Raw
    case _ => true
  }

  /// The last ticket that has come to the slot of `t` when its turn is that of `t`.
  ghost predicate CellOk<T>(s: State<T>, t: nat) {
    && (s.TurnOf(t) == 2 * Turn(t, s.capacity) ==>
          s.CellOf(t) == Raw || (t < |s.pushers| && s.Pc(s.pushers[t]) == StoreFilled(t)))
    && (s.TurnOf(t) == 2 * Turn(t, s.capacity) + 1 ==>
          HoldsPushed(s, t)
          || (t < |s.poppers| && (s.Pc(s.poppers[t]) == Destroy(t) || s.Pc(s.poppers[t]) == StoreFree(t))))
  }

  predicate ShapeOk<T>(s: State<T>) {
    && |s.turns| == |s.cells| == s.capacity
    && |s.pushed| == |s.pushers| == s.head && |s.poppers| == s.tail
  }

  ghost predicate Inv<T>(s: State<T>) {
    && ShapeOk(s)
    && (forall t: nat :: TicketOk(s, t))
    && (forall t: nat :: CellOk(s, t))
    && (forall u: Thread :: PcOk(s, u))
  }

  lemma SameTicket(t: nat, t': nat, c: Capacity)
    requires Idx(t, c) == Idx(t', c) && Turn(t, c) == Turn(t', c)
    ensures t == t'
  {
    assert t == (t / c) * c + t % c && t' == (t' / c) * c + t' % c;
  }

  lemma IdxBound(t: nat, c: Capacity)
    ensures Idx(t, c) < c
  {}

  /// What a step of `u` on ticket `n` leaves alone.
  ghost predicate Touches<T>(s: State<T>, s': State<T>, u: Thread, n: nat) {
    && s'.capacity == s.capacity && ShapeOk(s) && ShapeOk(s')
    && s.pushed <= s'.pushed && s.pushers <= s'.pushers && s.poppers <= s'.poppers
    && (s'.head != s.head ==> n == s.head == s'.head - 1)
    && (s'.tail != s.tail ==> n == s.tail == s'.tail - 1)
    && (forall w: Thread | w != u :: s'.Pc(w) == s.Pc(w))
    && (forall t: nat | Idx(t, s.capacity) != Idx(n, s.capacity) :: s'.TurnOf(t) == s.TurnOf(t)
          && s'.CellOf(t) == s.CellOf(t))
    && (forall t: nat | t != n :: t in s'.popped <==> t in s.popped)
    && (forall t: nat | t != n && t in s.popped :: s'.popped[t] == s.popped[t])
    && OnlyTicket(s.Pc(u), n) && OnlyTicket(s'.Pc(u), n)
  }

  /// A thread at `p` has no ticket but `n`.
  predicate OnlyTicket<T>(p: PC<T>, n: nat) {
    Critical(p) || p.AwaitFree? || p.AwaitFilled? ==> p.ticket == n
  }

  /// Places where a thread has its slot to itself.
  predicate Critical<T>(p: PC<T>) {
    p.Construct? || p.StoreFilled? || p.MoveOut? || p.Destroy? || p.StoreFree?
  }

  /// How the slot of ticket `n` may change: only in the hands of the thread that owns it, and its
  /// turn only from 2 lap to 2 lap + 1 to 2 lap + 2.
  ghost predicate SlotStep<T>(s: State<T>, s': State<T>, u: Thread, n: nat) {
    var lap := Turn(n, s.capacity);
    || (s'.TurnOf(n) == s.TurnOf(n) && s'.CellOf(n) == s.CellOf(n))
    || (Critical(s.Pc(u)) && s.Pc(u).ticket == n && PcOk(s, u)
        && (|| s'.TurnOf(n) == s.TurnOf(n)
            || (s.Pc(u).StoreFilled? && s'.TurnOf(n) == 2 * lap + 1)
            || (s.Pc(u).StoreFree? && s'.TurnOf(n) == 2 * lap + 2 && s'.CellOf(n) == Raw)))
  }

  lemma SameSlot<T>(s: State<T>, t: nat, n: nat)
    requires Idx(t, s.capacity) == Idx(n, s.capacity)
    ensures s.TurnOf(t) == s.TurnOf(n) && s.CellOf(t) == s.CellOf(n)
    ensures t != n ==> Turn(t, s.capacity) != Turn(n, s.capacity)
  {
    if t != n && Turn(t, s.capacity) == Turn(n, s.capacity) { SameTicket(t, n, s.capacity); }
  }

  lemma OtherPc<T>(s: State<T>, s': State<T>, u: Thread, n: nat, w: Thread)
    requires Touches(s, s', u, n) && SlotStep(s, s', u, n) && PcOk(s, w) && w != u
    requires n in s'.popped && n !in s.popped ==> OwnsPop(s, n, u)
    requires n in s.popped ==> n in s'.popped
    ensures PcOk(s', w)
  {
    hide Idx, Turn;
    var p := s.Pc(w);
    if Critical(p) || p.AwaitFree? || p.AwaitFilled? || p.CasHead? || p.CasTail? {
      var t := p.ticket;
      if Idx(t, s.capacity) == Idx(n, s.capacity) {
        SameSlot(s, t, n);
        SameSlot(s', t, n);
      }
    }
  }

  lemma OtherTicket<T>(s: State<T>, s': State<T>, u: Thread, n: nat, t: nat)
    requires Touches(s, s', u, n) && SlotStep(s, s', u, n) && t != n && TicketOk(s, t)
    ensures TicketOk(s', t)
  {
    hide Idx, Turn;
    if Idx(t, s.capacity) == Idx(n, s.capacity) {
      SameSlot(s, t, n);
      SameSlot(s', t, n);
    }
  }

  lemma OtherCell<T>(s: State<T>, s': State<T>, u: Thread, n: nat, t: nat)
    requires Touches(s, s', u, n) && SlotStep(s, s', u, n) && t != n && CellOk(s, t)
    ensures CellOk(s', t)
  {
    hide Idx, Turn;
    if Idx(t, s.capacity) == Idx(n, s.capacity) {
      SameSlot(s, t, n);
      SameSlot(s', t, n);
    }
  }

  /// A step that keeps the invariant for the one thread and the one ticket it is about keeps it everywhere.
  lemma Frame<T>(s: State<T>, s': State<T>, u: Thread, n: nat)
    requires Inv(s) && Touches(s, s', u, n) && SlotStep(s, s', u, n)
    requires PcOk(s', u) && TicketOk(s', n) && CellOk(s', n)
    requires n in s'.popped && n !in s.popped ==> OwnsPop(s, n, u)
    requires n in s.popped ==> n in s'.popped
    ensures Inv(s')
  {
    hide Touches, SlotStep, PcOk, TicketOk, CellOk;
    forall t: nat ensures TicketOk(s', t) && CellOk(s', t) {
      if t != n { OtherTicket(s, s', u, n, t); OtherCell(s, s', u, n, t); }
    }
    forall w: Thread ensures PcOk(s', w) {
      if w != u { OtherPc(s, s', u, n, w); }
    }
    assert ShapeOk(s') by { TouchesShape(s, s', u, n); }
  }

  lemma TouchesShape<T>(s: State<T>, s': State<T>, u: Thread, n: nat)
    requires Touches(s, s', u, n)
    ensures ShapeOk(s')
  {}

  /// The one ticket a step is about.
  function Target<T>(s: State<T>, u: Thread): nat {
    match s.Pc(u)
    case AwaitFree(t, _) => t
    case Construct(t, _) => t
    case StoreFilled(t) => t
    case AwaitFilled(t) => t
    case MoveOut(t) => t
    case Destroy(t) => t
    case StoreFree(t) => t
    case TakeTail => s.tail
    case CasTail(_) => s.tail
    case _ => s.head
  }

  ghost predicate LocalInv<T>(s: State<T>, u: Thread, n: nat) {
    ShapeOk(s) && PcOk(s, u) && TicketOk(s, n) && CellOk(s, n)
  }

  lemma SlotSet<T>(s: State<T>, t: nat, turn: nat, cell: Cell<T>)
    requires ShapeOk(s)
    ensures var s' := s.SetTurn(t, turn);
            ShapeOk(s') && s'.TurnOf(t) == turn && s'.CellOf(t) == s.CellOf(t)
            && (forall i: nat | Idx(i, s.capacity) != Idx(t, s.capacity) :: s'.TurnOf(i) == s.TurnOf(i)
                  && s'.CellOf(i) == s.CellOf(i))
    ensures var s' := s.SetCell(t, cell);
            ShapeOk(s') && s'.TurnOf(t) == s.TurnOf(t) && s'.CellOf(t) == cell
            && (forall i: nat | Idx(i, s.capacity) != Idx(t, s.capacity) :: s'.TurnOf(i) == s.TurnOf(i)
                  && s'.CellOf(i) == s.CellOf(i))
  {
    IdxBound(t, s.capacity);
  }

  /// What a step of `u` on ticket `n` has to keep.
  ghost predicate StepOk<T>(s: State<T>, s': State<T>, u: Thread, n: nat) {
    && Touches(s, s', u, n) && SlotStep(s, s', u, n) && LocalInv(s', u, n)
    && (n in s'.popped && n !in s.popped ==> OwnsPop(s, n, u)) && (n in s.popped ==> n in s'.popped)
  }

  lemma BeginStep<T>(s: State<T>, u: Thread, q: Request<T>)
    requires LocalInv(s, u, Target(s, u)) && (s.Pc(u).Idle?)
    ensures StepOk(s, Step(s, u, q), u, Target(s, u))
  {
    hide Idx, Turn;
  }

  lemma AwaitFreeStep<T>(s: State<T>, u: Thread, q: Request<T>)
    requires LocalInv(s, u, Target(s, u)) && (s.Pc(u).AwaitFree?)
    ensures StepOk(s, Step(s, u, q), u, Target(s, u))
  {
    hide Idx, Turn;
  }

  lemma AwaitFilledStep<T>(s: State<T>, u: Thread, q: Request<T>)
    requires LocalInv(s, u, Target(s, u)) && (s.Pc(u).AwaitFilled?)
    ensures StepOk(s, Step(s, u, q), u, Target(s, u))
  {
    hide Idx, Turn;
  }

  lemma LoadHeadStep<T>(s: State<T>, u: Thread, q: Request<T>)
    requires LocalInv(s, u, Target(s, u)) && (s.Pc(u).LoadHead? || s.Pc(u).CheckFree? || s.Pc(u).ReloadHead?)
    ensures StepOk(s, Step(s, u, q), u, Target(s, u))
  {
    hide Idx, Turn;
  }

  lemma LoadTailStep<T>(s: State<T>, u: Thread, q: Request<T>)
    requires LocalInv(s, u, Target(s, u)) && (s.Pc(u).LoadTail? || s.Pc(u).CheckFilled? || s.Pc(u).ReloadTail?)
    ensures StepOk(s, Step(s, u, q), u, Target(s, u))
  {
    hide Idx, Turn;
  }

  lemma TakeHeadStep<T>(s: State<T>, u: Thread, q: Request<T>)
    requires LocalInv(s, u, Target(s, u)) && (s.Pc(u).TakeHead?)
    ensures StepOk(s, Step(s, u, q), u, Target(s, u))
  {
    hide Idx, Turn;
  }

  lemma CasHeadStep<T>(s: State<T>, u: Thread, q: Request<T>)
    requires LocalInv(s, u, Target(s, u)) && (s.Pc(u).CasHead?)
    ensures StepOk(s, Step(s, u, q), u, Target(s, u))
  {
    hide Idx, Turn;
  }

  lemma TakeTailStep<T>(s: State<T>, u: Thread, q: Request<T>)
    requires LocalInv(s, u, Target(s, u)) && (s.Pc(u).TakeTail?)
    ensures StepOk(s, Step(s, u, q), u, Target(s, u))
  {
    hide Idx, Turn;
  }

  lemma CasTailStep<T>(s: State<T>, u: Thread, q: Request<T>)
    requires LocalInv(s, u, Target(s, u)) && (s.Pc(u).CasTail?)
    ensures StepOk(s, Step(s, u, q), u, Target(s, u))
  {
    hide Idx, Turn;
  }

  lemma StoreStep<T>(s: State<T>, u: Thread, q: Request<T>)
    requires LocalInv(s, u, Target(s, u)) && (s.Pc(u).StoreFilled? || s.Pc(u).StoreFree?)
    ensures StepOk(s, Step(s, u, q), u, Target(s, u))
  {
    hide Idx, Turn;
    var n, lap := Target(s, u), Turn(Target(s, u), s.capacity);
    SlotSet(s, n, lap * 2 + 1, Raw);
    SlotSet(s, n, lap * 2 + 2, Raw);
  }

  lemma ConstructStep<T>(s: State<T>, u: Thread, q: Request<T>)
    requires LocalInv(s, u, Target(s, u)) && (s.Pc(u).Construct?)
    ensures StepOk(s, Step(s, u, q), u, Target(s, u))
  {
    hide Idx, Turn;
    SlotSet(s, Target(s, u), 0, Constructed(s.Pc(u).value));
  }

  lemma MoveOutStep<T>(s: State<T>, u: Thread, q: Request<T>)
    requires LocalInv(s, u, Target(s, u)) && (s.Pc(u).MoveOut?)
    ensures StepOk(s, Step(s, u, q), u, Target(s, u))
  {
    hide Idx, Turn;
    var n := Target(s, u);
    SlotSet(s.(popped := s.popped[n := s.CellOf(n).value]), n, 0, MovedFrom);
  }

  lemma DestroyStep<T>(s: State<T>, u: Thread, q: Request<T>)
    requires LocalInv(s, u, Target(s, u)) && (s.Pc(u).Destroy?)
    ensures StepOk(s, Step(s, u, q), u, Target(s, u))
  {
    hide Idx, Turn;
    SlotSet(s, Target(s, u), 0, Raw);
  }

  lemma StepKeepsInv<T>(s: State<T>, u: Thread, q: Request<T>)
    requires Inv(s)
    ensures Inv(Step(s, u, q))
  {
    hide Touches, SlotStep, PcOk, TicketOk, CellOk, ShapeOk, Step;
    var n := Target(s, u);
    assert TicketOk(s, n) && CellOk(s, n) && PcOk(s, u);
    match s.Pc(u) {
      case Idle => BeginStep(s, u, q);
      case TakeHead(_) => TakeHeadStep(s, u, q);
      case AwaitFree(_, _) => AwaitFreeStep(s, u, q);
      case LoadHead(_) => LoadHeadStep(s, u, q);
      case CheckFree(_, _) => LoadHeadStep(s, u, q);
      case CasHead(_, _) => CasHeadStep(s, u, q);
      case ReloadHead(_, _) => LoadHeadStep(s, u, q);
      case Construct(_, _) => ConstructStep(s, u, q);
      case StoreFilled(_) => StoreStep(s, u, q);
      case TakeTail => TakeTailStep(s, u, q);
      case AwaitFilled(_) => AwaitFilledStep(s, u, q);
      case LoadTail => LoadTailStep(s, u, q);
      case CheckFilled(_) => LoadTailStep(s, u, q);
      case CasTail(_) => CasTailStep(s, u, q);
      case ReloadTail(_) => LoadTailStep(s, u, q);
      case MoveOut(_) => MoveOutStep(s, u, q);
      case Destroy(_) => DestroyStep(s, u, q);
      case StoreFree(_) => StoreStep(s, u, q);
    }
    Frame(s, Step(s, u, q), u, n);
  }

  // ------------------------------------------------------------- theorems

  ghost predicate Init<T>(s: State<T>) {
    && s.head == s.tail == 0 && s.pushed == [] && s.pushers == [] && s.poppers == [] && s.popped == map[]
    && s.pc == map[]
    && |s.turns| == |s.cells| == s.capacity
    && (forall i | 0 <= i < |s.turns| :: s.turns[i] == 0 && s.cells[i] == Raw)
  }

  type Schedule<T> = seq<(Thread, Request<T>)>

  function Run<T>(s: State<T>, schedule: Schedule<T>): State<T>
    decreases |schedule|
  {
    if schedule == [] then s else Run(Step(s, schedule[0].0, schedule[0].1), schedule[1..])
  }

  lemma InitHasInv<T>(s: State<T>)
    requires Init(s)
    ensures Inv(s)
  {
    hide Idx, Turn;
  }

  /// Every interleaving of any number of calls keeps the invariant.
  lemma {:induction false} RunKeepsInv<T>(s: State<T>, schedule: Schedule<T>)
    requires Inv(s)
    ensures Inv(Run(s, schedule))
    decreases |schedule|
  {
    hide Inv, Step;
    if schedule != [] {
      StepKeepsInv(s, schedule[0].0, schedule[0].1);
      RunKeepsInv(Step(s, schedule[0].0, schedule[0].1), schedule[1..]);
    }
  }

  lemma {:induction false} RunAppend<T>(s: State<T>, a: Schedule<T>, b: Schedule<T>)
    ensures Run(s, a + b) == Run(Run(s, a), b)
    decreases |a|
  {
    hide Step;
    if a == [] {
      assert a + b == b;
    } else {
      assert (a + b)[1..] == a[1..] + b;
      RunAppend(Step(s, a[0].0, a[0].1), a[1..], b);
    }
  }

  lemma LastMove<T>(s: State<T>, schedule: Schedule<T>)
    requires schedule != []
    ensures var n := |schedule| - 1; Run(s, schedule) == Step(Run(s, schedule[..n]), schedule[n].0, schedule[n].1)
  {
    hide Step;
    var n := |schedule| - 1;
    var last: Schedule<T> := [schedule[n]];
    assert schedule == schedule[..n] + last && last[1..] == [];
    RunAppend(s, schedule[..n], last);
  }

  // ---- what is popped is what was pushed

  /// The value the step of `u` takes a ticket for, if it does.
  function Accepted<T>(s: State<T>, u: Thread): seq<T> {
    if s.Pc(u).TakeHead? || (s.Pc(u).CasHead? && s.head == s.Pc(u).ticket) then [s.Pc(u).value] else []
  }

  /// The values of all the pushes that got a ticket, in that order.
  function AcceptedBy<T>(s: State<T>, schedule: Schedule<T>): seq<T>
    decreases |schedule|
  {
    if schedule == [] then []
    else Accepted(s, schedule[0].0) + AcceptedBy(Step(s, schedule[0].0, schedule[0].1), schedule[1..])
  }

  lemma AcceptStep<T>(s: State<T>, u: Thread, q: Request<T>)
    ensures Step(s, u, q).pushed == s.pushed + Accepted(s, u)
    ensures s.head <= Step(s, u, q).head && s.tail <= Step(s, u, q).tail && Step(s, u, q).capacity == s.capacity
    ensures forall w: Thread | w != u :: Step(s, u, q).Pc(w) == s.Pc(w)
  {
    hide Idx, Turn, Step;
    if Critical(s.Pc(u)) { SlotStepKeeps(s, u, q); } else { OtherStepKeeps(s, u, q); }
  }

  lemma SlotStepKeeps<T>(s: State<T>, u: Thread, q: Request<T>)
    requires Critical(s.Pc(u))
    ensures var s' := Step(s, u, q);
            s'.pushed == s.pushed && s'.head == s.head && s'.tail == s.tail && s'.capacity == s.capacity
    ensures forall w: Thread | w != u :: Step(s, u, q).Pc(w) == s.Pc(w)
  {
    hide Idx, Turn;
    SetKeeps(s, s.Pc(u).ticket, Turn(s.Pc(u).ticket, s.capacity) * 2 + 1, Raw);
    SetKeeps(s, s.Pc(u).ticket, Turn(s.Pc(u).ticket, s.capacity) * 2 + 2, MovedFrom);
  }

  lemma SetKeeps<T>(s: State<T>, t: nat, turn: nat, cell: Cell<T>)
    ensures s.SetTurn(t, turn) == s.(turns := s.SetTurn(t, turn).turns)
    ensures s.SetCell(t, cell) == s.(cells := s.SetCell(t, cell).cells)
  {
    hide Idx;
  }

  lemma OtherStepKeeps<T>(s: State<T>, u: Thread, q: Request<T>)
    requires !Critical(s.Pc(u))
    ensures Step(s, u, q).pushed == s.pushed + Accepted(s, u)
    ensures s.head <= Step(s, u, q).head && s.tail <= Step(s, u, q).tail && Step(s, u, q).capacity == s.capacity
    ensures forall w: Thread | w != u :: Step(s, u, q).Pc(w) == s.Pc(w)
  {
    hide Idx, Turn;
  }

  lemma {:induction false} AcceptedInOrder<T>(s: State<T>, schedule: Schedule<T>)
    ensures Run(s, schedule).pushed == s.pushed + AcceptedBy(s, schedule)
    ensures s.head <= Run(s, schedule).head && s.tail <= Run(s, schedule).tail
              && Run(s, schedule).capacity == s.capacity
    decreases |schedule|
  {
    hide Step, Accepted;
    if schedule != [] {
      AcceptStep(s, schedule[0].0, schedule[0].1);
      AcceptedInOrder(Step(s, schedule[0].0, schedule[0].1), schedule[1..]);
    }
  }

  /// First in, first out: in every run the pop with ticket t gets the t-th value accepted.
  lemma PoppedIsPushed<T>(s: State<T>, schedule: Schedule<T>, t: nat)
    requires Init(s) && t in Run(s, schedule).popped
    ensures t < Run(s, schedule).tail && t < |AcceptedBy(s, schedule)|
    ensures Run(s, schedule).popped[t] == AcceptedBy(s, schedule)[t]
  {
    hide PcOk, CellOk, Step;
    InitHasInv(s);
    RunKeepsInv(s, schedule);
    AcceptedInOrder(s, schedule);
    assert TicketOk(Run(s, schedule), t);
  }

  /// Each ticket is in the hands of one thread.
  lemma OwnedByOne<T>(s: State<T>, u: Thread, w: Thread, t: nat)
    requires Inv(s)
    ensures Pushing(s.Pc(u), t) && Pushing(s.Pc(w), t) ==> u == w
    ensures Popping(s.Pc(u), t) && Popping(s.Pc(w), t) ==> u == w
  {
    hide Idx, Turn, TicketOk, CellOk;
    assert PcOk(s, u) && PcOk(s, w);
  }

  // ---- the life of a slot

  /// A thread that writes a slot, or its turn, has it to itself.
  lemma SlotOwnedByOne<T>(s: State<T>, u: Thread, w: Thread)
    requires Inv(s) && Critical(s.Pc(u)) && Critical(s.Pc(w))
    requires Idx(s.Pc(u).ticket, s.capacity) == Idx(s.Pc(w).ticket, s.capacity)
    ensures u == w
  {
    hide Idx, Turn, TicketOk, CellOk;
    assert PcOk(s, u) && PcOk(s, w);
    SameSlot(s, s.Pc(u).ticket, s.Pc(w).ticket);
  }

  /// Objects are constructed in raw storage, moved from where the value pushed with the ticket is,
  /// and destroyed once moved from.
  lemma SlotLifetime<T>(s: State<T>, schedule: Schedule<T>, u: Thread)
    requires Init(s) && Critical(Run(s, schedule).Pc(u))
    ensures var e := Run(s, schedule); var p := e.Pc(u);
            && (p.Construct? ==> e.CellOf(p.ticket) == Raw)
            && (p.MoveOut? ==> HoldsPushed(e, p.ticket) && p.ticket !in e.popped)
            && (p.Destroy? ==> e.CellOf(p.ticket) == MovedFrom)
  {
    hide Idx, Turn, TicketOk, CellOk, Step;
    InitHasInv(s);
    RunKeepsInv(s, schedule);
    assert PcOk(Run(s, schedule), u);
  }

  /// The turn of a slot only ever advances by one: with a push when even, with a pop when odd.
  lemma TurnAlternates<T>(s: State<T>, u: Thread, q: Request<T>, i: nat)
    requires Inv(s) && i < s.capacity
    ensures var p, turn, turn' := s.Pc(u), TurnIn(s.turns, i), TurnIn(Step(s, u, q).turns, i);
            turn' == turn
            || (turn' == turn + 1 && turn % 2 == 0 && p.StoreFilled? && Idx(p.ticket, s.capacity) == i
                  && turn == 2 * Turn(p.ticket, s.capacity))
            || (turn' == turn + 1 && turn % 2 == 1 && p.StoreFree? && Idx(p.ticket, s.capacity) == i
                  && turn == 2 * Turn(p.ticket, s.capacity) + 1)
  {
    hide Idx, Turn, TicketOk, CellOk;
    assert PcOk(s, u);
  }

  // ---- the try operations refine a bounded queue

  /// What has been accepted and not yet claimed by a pop.
  function Contents<T>(s: State<T>): seq<T> {
    if s.tail <= |s.pushed| then s.pushed[s.tail..] else []
  }

  lemma PreviousLap(t: nat, c: Capacity)
    ensures Turn(t, c) >= 1 ==> t >= c && Idx(t - c, c) == Idx(t, c) && Turn(t - c, c) == Turn(t, c) - 1
    ensures t >= c ==> Turn(t, c) >= 1
  {
    var q, r := t / c, t % c;
    assert t == q * c + r;
    if q >= 1 {
      assert q * c >= c;
      assert t - c == (q - 1) * c + r;
      Index.ModuloUnique(t - c, q - 1, r, c);
    }
    assert q < 1 ==> q * c <= 0;
  }

  /// try_emplace succeeds only with fewer than `capacity` elements in the queue, and appends.
  lemma TryEmplaceAppends<T>(s: State<T>, u: Thread, q: Request<T>)
    requires Inv(s) && s.Pc(u).CasHead? && s.head == s.Pc(u).ticket
    ensures s.head - s.tail < s.capacity
    ensures s.tail <= s.head ==> Contents(Step(s, u, q)) == Contents(s) + [s.Pc(u).value] && |Contents(s)| < s.capacity
  {
    hide Idx, Turn, CellOk;
    var h := s.head;
    assert PcOk(s, u) && TicketOk(s, h);
    PreviousLap(h, s.capacity);
    if h >= s.capacity { assert TicketOk(s, h - s.capacity); }
  }

  /// try_pop succeeds only if the queue is not empty, and gets its first element.
  lemma TryPopTakesFirst<T>(s: State<T>, u: Thread, q: Request<T>)
    requires Inv(s) && s.Pc(u).CasTail? && s.tail == s.Pc(u).ticket
    ensures Contents(s) != [] && Contents(Step(s, u, q)) == Contents(s)[1..]
    ensures Step(s, u, q).Pc(u) == MoveOut(s.tail) && s.CellOf(s.tail) == Constructed(Contents(s)[0])
  {
    hide Idx, Turn, TicketOk;
    assert PcOk(s, u) && TicketOk(s, s.tail) && CellOk(s, s.tail);
    NotPoppedYet(s, s.tail);
  }

  lemma NotPoppedYet<T>(s: State<T>, t: nat)
    requires Inv(s) && s.tail <= t
    ensures !Emptied(s.turns, s.capacity, t)
    ensures s.TurnOf(t) > 2 * Turn(t, s.capacity) ==> t < s.head
  {
    hide Idx, Turn;
    assert TicketOk(s, t);
  }

  // ---- the meaning of failure

  /// A thread about to reload the head has, at an earlier moment, found the slot not free.
  lemma {:induction false} FoundTaken<T>(s: State<T>, schedule: Schedule<T>, u: Thread) returns (n: nat)
    requires Init(s) && Run(s, schedule).Pc(u).ReloadHead?
    ensures n <= |schedule|
    ensures var p, w := Run(s, schedule).Pc(u), Run(s, schedule[..n]);
            w.Pc(u) == CheckFree(p.ticket, p.value) && w.TurnOf(p.ticket) != 2 * Turn(p.ticket, s.capacity)
    ensures forall j | n < j <= |schedule| :: Run(s, schedule[..j]).Pc(u) == Run(s, schedule).Pc(u)
    decreases |schedule|
  {
    hide Idx, Turn, Step;
    n := |schedule| - 1;
    LastMove(s, schedule);
    var before, m := Run(s, schedule[..n]), schedule[n];
    AcceptStep(before, m.0, m.1);
    AcceptedInOrder(s, schedule[..n]);
    if m.0 == u {
      ReloadsAfterCheck(before, u, m.1);
      assert forall j | n < j <= |schedule| :: schedule[..j] == schedule;
    } else {
      var last := n;
      n := FoundTaken(s, schedule[..last], u);
      assert schedule[..last][..n] == schedule[..n];
      forall j | n < j <= |schedule| ensures Run(s, schedule[..j]).Pc(u) == Run(s, schedule).Pc(u) {
        if j <= last { assert schedule[..last][..j] == schedule[..j]; } else { assert schedule[..j] == schedule; }
      }
    }
  }

  lemma ReloadsAfterCheck<T>(s: State<T>, u: Thread, q: Request<T>)
    ensures Step(s, u, q).Pc(u).ReloadHead? ==>
              var p := Step(s, u, q).Pc(u);
              s.Pc(u) == CheckFree(p.ticket, p.value) && s.TurnOf(p.ticket) != 2 * Turn(p.ticket, s.capacity)
    ensures Step(s, u, q).Pc(u).ReloadTail? ==>
              var p := Step(s, u, q).Pc(u);
              s.Pc(u) == CheckFilled(p.ticket) && s.TurnOf(p.ticket) != 2 * Turn(p.ticket, s.capacity) + 1
  {
    hide Idx, Turn;
  }

  /// The thread has not moved since it took the step after moment n.
  ghost predicate SinceThen<T>(s: State<T>, schedule: Schedule<T>, u: Thread, n: nat) {
    n <= |schedule| && forall j | n < j <= |schedule| :: Run(s, schedule[..j]).Pc(u) == Run(s, schedule).Pc(u)
  }

  /// If try_emplace is about to return false, there was a moment during this call when the head
  /// was at ticket h and the pop of the ticket `capacity` before it was not complete: the thread
  /// looked at the slot then, and has not moved since.
  lemma TryEmplaceFails<T>(s: State<T>, schedule: Schedule<T>, u: Thread)
    requires Init(s) && Run(s, schedule).Pc(u).ReloadHead? && Run(s, schedule).head == Run(s, schedule).Pc(u).ticket
    ensures exists n: nat :: SinceThen(s, schedule, u, n) &&
              var h, w := Run(s, schedule).head, Run(s, schedule[..n]);
              && w.Pc(u) == CheckFree(h, Run(s, schedule).Pc(u).value)
              && w.head == h >= s.capacity && !Emptied(w.turns, s.capacity, h - s.capacity)
  {
    hide Idx, Turn, Step, CellOk;
    var n := FoundTaken(s, schedule, u);
    var h, w := Run(s, schedule).head, Run(s, schedule[..n]);
    InitHasInv(s);
    RunKeepsInv(s, schedule[..n]);
    AcceptedInOrder(s, schedule[..n]);
    RunAppend(s, schedule[..n], schedule[n..]);
    assert schedule == schedule[..n] + schedule[n..];
    AcceptedInOrder(w, schedule[n..]);
    assert PcOk(w, u) && TicketOk(w, h);
    PreviousLap(h, s.capacity);
    assert SinceThen(s, schedule, u, n);
  }

  lemma {:induction false} FoundUnfilled<T>(s: State<T>, schedule: Schedule<T>, u: Thread) returns (n: nat)
    requires Init(s) && Run(s, schedule).Pc(u).ReloadTail?
    ensures n <= |schedule|
    ensures var p, w := Run(s, schedule).Pc(u), Run(s, schedule[..n]);
            w.Pc(u) == CheckFilled(p.ticket) && w.TurnOf(p.ticket) != 2 * Turn(p.ticket, s.capacity) + 1
    ensures forall j | n < j <= |schedule| :: Run(s, schedule[..j]).Pc(u) == Run(s, schedule).Pc(u)
    decreases |schedule|
  {
    hide Idx, Turn, Step;
    n := |schedule| - 1;
    LastMove(s, schedule);
    var before, m := Run(s, schedule[..n]), schedule[n];
    AcceptStep(before, m.0, m.1);
    AcceptedInOrder(s, schedule[..n]);
    if m.0 == u {
      ReloadsAfterCheck(before, u, m.1);
      assert forall j | n < j <= |schedule| :: schedule[..j] == schedule;
    } else {
      var last := n;
      n := FoundUnfilled(s, schedule[..last], u);
      assert schedule[..last][..n] == schedule[..n];
      forall j | n < j <= |schedule| ensures Run(s, schedule[..j]).Pc(u) == Run(s, schedule).Pc(u) {
        if j <= last { assert schedule[..last][..j] == schedule[..j]; } else { assert schedule[..j] == schedule; }
      }
    }
  }

  /// If try_pop is about to return false, there was a moment during this call when the tail was at
  /// ticket t and the push of that ticket was not complete: the thread looked at the slot then,
  /// and has not moved since.
  lemma TryPopFails<T>(s: State<T>, schedule: Schedule<T>, u: Thread)
    requires Init(s) && Run(s, schedule).Pc(u).ReloadTail? && Run(s, schedule).tail == Run(s, schedule).Pc(u).ticket
    ensures exists n: nat :: SinceThen(s, schedule, u, n) &&
              var t, w := Run(s, schedule).tail, Run(s, schedule[..n]);
              w.Pc(u) == CheckFilled(t) && w.tail == t && !Filled(w.turns, s.capacity, t)
  {
    hide Idx, Turn, Step, CellOk;
    var n := FoundUnfilled(s, schedule, u);
    var t, w := Run(s, schedule).tail, Run(s, schedule[..n]);
    InitHasInv(s);
    RunKeepsInv(s, schedule[..n]);
    AcceptedInOrder(s, schedule[..n]);
    RunAppend(s, schedule[..n], schedule[n..]);
    assert schedule == schedule[..n] + schedule[n..];
    AcceptedInOrder(w, schedule[n..]);
    assert PcOk(w, u) && TicketOk(w, t);
    assert SinceThen(s, schedule, u, n);
  }

  // ---- conservation and destruction

  ghost predicate Quiescent<T>(s: State<T>) {
    forall u: Thread :: s.Pc(u).Idle?
  }

  /// The ticket whose push the odd turn of slot i belongs to.
  function TicketAt(turn: nat, i: nat, c: Capacity): nat {
    (turn / 2) * c + i
  }

  lemma TicketAtSlot(turn: nat, i: nat, c: Capacity)
    requires i < c
    ensures Idx(TicketAt(turn, i, c), c) == i && Turn(TicketAt(turn, i, c), c) == turn / 2
  {
    Index.ModuloUnique(TicketAt(turn, i, c), turn / 2, i, c);
  }

  /// With no call in progress every element accepted and not popped is in a slot with an odd
  /// turn, one slot each; all other slots have even turns and raw storage.
  lemma SlotsAtRest<T>(s: State<T>, schedule: Schedule<T>, i: nat)
    requires Init(s) && Quiescent(Run(s, schedule)) && i < s.capacity
    ensures var e := Run(s, schedule); var turn := TurnIn(e.turns, i); var t := TicketAt(turn, i, s.capacity);
            && |e.turns| == |e.cells| == s.capacity && e.tail <= e.head == |e.pushed| && e.head <= e.tail + s.capacity
            && (turn % 2 == 1 <==> exists n: nat :: e.tail <= n < e.head && Idx(n, s.capacity) == i)
            && (turn % 2 == 1 ==>
                  e.tail <= t < e.head && Idx(t, s.capacity) == i && e.cells[i] == Constructed(e.pushed[t]))
            && (turn % 2 == 0 ==> e.cells[i] == Raw)
  {
    hide Idx, Turn, Step;
    InitHasInv(s);
    RunKeepsInv(s, schedule);
    AcceptedInOrder(s, schedule);
    AtRest(Run(s, schedule), i);
  }

  lemma TicketAtRest<T>(e: State<T>, t: nat)
    requires Inv(e) && Quiescent(e)
    ensures t < e.head <==> Filled(e.turns, e.capacity, t)
    ensures t < e.tail <==> Emptied(e.turns, e.capacity, t)
  {
    hide Idx, Turn;
    assert TicketOk(e, t);
  }

  lemma BoundsAtRest<T>(e: State<T>)
    requires Inv(e) && Quiescent(e)
    ensures e.tail <= e.head <= e.tail + e.capacity
  {
    hide Idx, Turn, Inv;
    TicketAtRest(e, e.head);
    TicketAtRest(e, e.tail);
    TicketAtRest(e, e.tail + e.capacity);
    PreviousLap(e.tail + e.capacity, e.capacity);
  }

  lemma AtRest<T>(e: State<T>, i: nat)
    requires Inv(e) && Quiescent(e) && i < e.capacity
    ensures var turn := TurnIn(e.turns, i); var t := TicketAt(turn, i, e.capacity);
            && e.tail <= e.head <= e.tail + e.capacity
            && (turn % 2 == 1 <==> exists n: nat :: e.tail <= n < e.head && Idx(n, e.capacity) == i)
            && (turn % 2 == 1 ==>
                  e.tail <= t < e.head && Idx(t, e.capacity) == i && e.cells[i] == Constructed(e.pushed[t]))
            && (turn % 2 == 0 ==> e.cells[i] == Raw)
  {
    hide Idx, Turn;
    var turn := TurnIn(e.turns, i);
    var t := TicketAt(turn, i, e.capacity);
    TicketAtSlot(turn, i, e.capacity);
    BoundsAtRest(e);
    TicketAtRest(e, t);
    assert CellOk(e, t);
    forall n: nat | e.tail <= n < e.head && Idx(n, e.capacity) == i ensures turn % 2 == 1 {
      TicketAtRest(e, n);
    }
  }

  /// What the destructors of the slots do.
  method DestroySlots<T>(turns: array<nat>, cells: array<Cell<T>>) returns (destroyed: seq<nat>)
    requires turns.Length == cells.Length
    requires forall i | 0 <= i < turns.Length :: turns[i] % 2 == 1 ==> cells[i].Constructed?
    modifies cells
    ensures forall a, b | 0 <= a < b < |destroyed| :: destroyed[a] < destroyed[b]
    ensures forall i: nat :: i in destroyed <==> i < turns.Length && turns[i] % 2 == 1
    ensures forall i | 0 <= i < cells.Length :: cells[i] == if turns[i] % 2 == 1 then Raw else old(cells[i])
  {
    destroyed := [];
    var i := 0;
    while i < turns.Length
      invariant 0 <= i <= turns.Length
      invariant forall a, b | 0 <= a < b < |destroyed| :: destroyed[a] < destroyed[b]
      invariant forall k: nat :: k in destroyed <==> k < i && turns[k] % 2 == 1
      invariant forall k | 0 <= k < cells.Length ::
                  cells[k] == if k < i && turns[k] % 2 == 1 then Raw else old(cells[k])
    {
      if turns[i] % 2 == 1 {
        cells[i] := Raw;
        assert forall a | 0 <= a < |destroyed| :: destroyed[a] in destroyed;
        destroyed := destroyed + [i];
      }
      i := i + 1;
    }
  }

  function Elements(xs: seq<nat>): set<nat> { set x <- xs }

  lemma {:induction false} SizeOfDistinct(xs: seq<nat>)
    requires forall a, b | 0 <= a < b < |xs| :: xs[a] != xs[b]
    ensures |Elements(xs)| == |xs|
  {
    if xs != [] {
      var n := |xs| - 1;
      SizeOfDistinct(xs[..n]);
      assert Elements(xs) == Elements(xs[..n]) + {xs[n]};
    }
  }

  lemma SlotOfTicket<T>(s: State<T>, schedule: Schedule<T>, t: nat)
    requires Init(s) && Quiescent(Run(s, schedule)) && Run(s, schedule).tail <= t < Run(s, schedule).head
    ensures var e := Run(s, schedule); var i := Idx(t, s.capacity);
            |e.turns| == |e.cells| == s.capacity && i < s.capacity && |e.pushed| == e.head && e.turns[i] % 2 == 1
                && e.cells[i] == Constructed(e.pushed[t])
  {
    hide Idx, Turn, TicketAt;
    IdxBound(t, s.capacity);
    SlotsAtRest(s, schedule, Idx(t, s.capacity));
    var e := Run(s, schedule);
    var t' := TicketAt(e.turns[Idx(t, s.capacity)], Idx(t, s.capacity), s.capacity);
    if t != t' { SlotsDiffer(if t < t' then t else t', if t < t' then t' else t, s.capacity); }
  }

  lemma SlotsDiffer(t: nat, u: nat, c: Capacity)
    requires t < u < t + c
    ensures Idx(t, c) != Idx(u, c)
  {
    Index.ModuloDistinct(t, u, c);
  }

  lemma SameSize(c: Capacity, tail: nat, head: nat, slots: seq<nat>)
    requires tail <= head && forall a, b | 0 <= a < b < |slots| :: slots[a] < slots[b]
    requires forall t | tail <= t < head :: Idx(t, c) in slots
    requires forall i <- slots :: exists t: nat :: tail <= t < head && Idx(t, c) == i
    requires forall t, u | tail <= t < u < head :: Idx(t, c) != Idx(u, c)
    ensures |slots| == head - tail
  {
    hide Idx;
    var tickets := seq(head - tail, i requires 0 <= i < head - tail => Idx(tail + i, c));
    assert Elements(tickets) == Elements(slots) by {
      forall i | i in slots ensures i in tickets {
        var t: nat :| tail <= t < head && Idx(t, c) == i;
        assert tickets[t - tail] == i;
      }
    }
    SizeOfDistinct(tickets);
    SizeOfDistinct(slots);
  }

  /// Run at rest, the destructor finds an object in every slot it destroys, and destroys each
  /// element that was accepted and not popped, each once.
  lemma DestroysEachOnce<T>(s: State<T>, schedule: Schedule<T>, destroyed: seq<nat>)
    requires Init(s) && Quiescent(Run(s, schedule))
    requires forall a, b | 0 <= a < b < |destroyed| :: destroyed[a] < destroyed[b]
    requires var turns := Run(s, schedule).turns; forall i: nat :: i in destroyed <==> i < |turns| && turns[i] % 2 == 1
    ensures var e := Run(s, schedule);
            && |e.turns| == |e.cells| == s.capacity && e.tail <= e.head == |e.pushed|
            && (forall i | 0 <= i < s.capacity && e.turns[i] % 2 == 1 :: e.cells[i].Constructed?)
            && (forall t | e.tail <= t < e.head :: Idx(t, s.capacity) in destroyed
                  && e.cells[Idx(t, s.capacity)] == Constructed(e.pushed[t]))
            && (forall i <- destroyed :: exists t: nat :: e.tail <= t < e.head && Idx(t, s.capacity) == i)
            && (forall t, u | e.tail <= t < u < e.head :: Idx(t, s.capacity) != Idx(u, s.capacity))
            && |destroyed| == e.head - e.tail
  {
    hide Run, Idx, Init, Quiescent;
    var e := Run(s, schedule);
    SlotsAtRest(s, schedule, 0);
    forall i | 0 <= i < s.capacity
      ensures e.turns[i] % 2 == 1 ==>
                e.cells[i].Constructed? && exists t: nat :: e.tail <= t < e.head && Idx(t, s.capacity) == i
    {
      SlotsAtRest(s, schedule, i);
    }
    forall t | e.tail <= t < e.head
      ensures Idx(t, s.capacity) in destroyed && e.cells[Idx(t, s.capacity)] == Constructed(e.pushed[t])
    {
      SlotOfTicket(s, schedule, t);
    }
    forall t, u | e.tail <= t < u < e.head ensures Idx(t, s.capacity) != Idx(u, s.capacity) {
      SlotsDiffer(t, u, s.capacity);
    }
    SameSize(s.capacity, e.tail, e.head, destroyed);
  }
}
