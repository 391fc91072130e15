/// The lock-free free list of blocks (concurrentqueue.h, FreeList).
///
/// Any number of threads interleave `add` and `try_get`, one atomic operation per step.  The
/// variables of the program are `head`, `next`, `refs` and the local variables in `pc`; `list`
/// and `status` are history variables that no step of the program ever reads.
module FreeList {

  type Thread = nat
  type Node = nat

  datatype Link = Null | To(node: Node)

  // freeListRefs is a 32-bit word: 31 bits of reference count under one flag bit.
  const WORD := 0x1_0000_0000
  const SHOULD_BE_ON_FREELIST := 0x8000_0000

  function RefCount(word: nat): nat {
    word % SHOULD_BE_ON_FREELIST
  }

  function FetchAdd(word: nat, amount: nat): nat {
    (word + amount) % WORD
  }

  function FetchSub(word: nat, amount: nat): nat
    requires amount <= WORD
  {
    (word + WORD - amount) % WORD
  }

  /// Where `add_knowing_refcount_is_zero` returns to: the end of `add`, or the loop of `try_get`.
  datatype After = Return | Resume(head: Link)

  /// One constructor for each atomic operation a thread is about to execute.
  datatype PC =
    | Idle
    | SetFlag(node: Node)
    | LoadHeadToAdd(node: Node, after: After)
    | StoreNext(node: Node, head: Link, after: After)
    | StoreRefs(node: Node, head: Link, after: After)
    | Publish(node: Node, head: Link, after: After)
    | Withdraw(node: Node, head: Link, after: After)
    | LoadHead
    | LoadRefs(node: Node)
    | Acquire(node: Node, seen: nat)
    | ReadNext(node: Node)
    | Unlink(node: Node, next: Link)
    | ReleaseTwice(node: Node)
    | ReleaseOnce(node: Node, head: Link)

  /// History: what has become of a node.
  datatype Status =
    | Client(owner: Thread)       // held by a client of the list
    | AddCalled(thread: Thread)   // passed to `add`, flag not yet set
    | Pending                     // flagged; the last thread to drop its reference will add it
    | Adding(thread: Thread)      // flagged, no references left, being prepared
    | Publishing(thread: Thread)  // holds the list's future reference, not linked yet
    | OnList
    | Taken(thread: Thread)       // unlinked, the list's reference not yet dropped

  /// A node nobody has touched yet has no entry in the maps: it has no references and belongs
  /// to the client of thread 0.
  datatype State = State(
    head: Link,
    next: map<Node, Link>,
    refs: map<Node, nat>,
    pc: map<Thread, PC>,
    list: seq<Node>,
    status: map<Node, Status>)
  {
    function Next(n: Node): Link { if n in next then next[n] else Null }
    function Refs(n: Node): nat { if n in refs then refs[n] else 0 }
    function Status(n: Node): Status { if n in status then status[n] else Client(0) }

    function Goto(t: Thread, p: PC): State { this.(pc := pc[t := p]) }
    function Mark(n: Node, st: Status): State { this.(status := status[n := st]) }
    function SetRefs(n: Node, word: nat): State { this.(refs := refs[n := word]) }
    function SetNext(n: Node, l: Link): State { this.(next := next[n := l]) }
  }

  /// What an idle thread may ask for; `Go` lets a thread inside a call take its next step.
  datatype Request = CallAdd(node: Node) | CallTryGet | HandOver(node: Node, to: Thread) | Go

  // ---------------------------------------------------------------- steps

  /// The loop condition of `try_get`.
  function LoopOn(head: Link): PC {
    if head.Null? then Idle else LoadRefs(head.node)
  }

  function Finish(after: After): PC {
    if after.Return? then Idle else LoopOn(after.head)
  }

  /// One step of thread `t`.  An idle thread starts a call; a busy thread ignores the request.
  function Step(s: State, t: Thread, q: Request): State
    requires t in s.pc
  {
    match s.pc[t]
    case Idle =>
      (match q
       case CallAdd(n) =>
         // the caller of add() owns the node it passes
         if s.Status(n) == Client(t) then s.Goto(t, SetFlag(n)).Mark(n, AddCalled(t)) else s
       case CallTryGet => s.Goto(t, LoadHead)
       case HandOver(n, to) =>
         if s.Status(n) == Client(t) then s.Mark(n, Client(to)) else s
       case Go => s)
    case SetFlag(n) =>
      var s1 := s.SetRefs(n, FetchAdd(s.Refs(n), SHOULD_BE_ON_FREELIST));
      if s.Refs(n) == 0
      then s1.Goto(t, LoadHeadToAdd(n, Return)).Mark(n, Adding(t))
      else s1.Goto(t, Idle).Mark(n, Pending)
    case LoadHeadToAdd(n, a) => s.Goto(t, StoreNext(n, s.head, a))
    case StoreNext(n, h, a) => s.SetNext(n, h).Goto(t, StoreRefs(n, h, a))
    case StoreRefs(n, h, a) => s.SetRefs(n, 1).Goto(t, Publish(n, h, a)).Mark(n, Publishing(t))
    case Publish(n, h, a) =>
      if s.head == h
      then s.(head := To(n), list := [n] + s.list).Goto(t, Finish(a)).Mark(n, OnList)
      else s.Goto(t, Withdraw(n, s.head, a))
    case Withdraw(n, h, a) =>
      var s1 := s.SetRefs(n, FetchAdd(s.Refs(n), SHOULD_BE_ON_FREELIST - 1));
      if s.Refs(n) == 1
      then s1.Goto(t, StoreNext(n, h, a)).Mark(n, Adding(t))
      else s1.Goto(t, Finish(a)).Mark(n, Pending)
    case LoadHead => s.Goto(t, LoopOn(s.head))
    case LoadRefs(n) =>
      if RefCount(s.Refs(n)) == 0 then s.Goto(t, LoadHead) else s.Goto(t, Acquire(n, s.Refs(n)))
    case Acquire(n, seen) =>
      if s.Refs(n) == seen
      then s.SetRefs(n, FetchAdd(seen, 1)).Goto(t, ReadNext(n))
      else s.Goto(t, LoadHead)
    case ReadNext(n) => s.Goto(t, Unlink(n, s.Next(n)))
    case Unlink(n, x) =>
      if s.head == To(n)
      then s.(head := x, list := if |s.list| > 0 then s.list[1..] else []).Goto(t, ReleaseTwice(n)).Mark(n, Taken(t))
      else s.Goto(t, ReleaseOnce(n, s.head))
    case ReleaseTwice(n) =>
      s.SetRefs(n, FetchSub(s.Refs(n), 2)).Goto(t, Idle).Mark(n, Client(t))
    case ReleaseOnce(n, h) =>
      var s1 := s.SetRefs(n, FetchSub(s.Refs(n), 1));
      if s.Refs(n) == SHOULD_BE_ON_FREELIST + 1
      then s1.Goto(t, LoadHeadToAdd(n, Resume(h))).Mark(n, Adding(t))
      else s1.Goto(t, LoopOn(h))
  }

  // ------------------------------------------------------------ invariant

  /// A transient reference: between the increment in `try_get` and the matching decrement.
  predicate Holds(pc: PC, n: Node) {
    (pc.ReadNext? || pc.Unlink? || pc.ReleaseTwice? || pc.ReleaseOnce?) && pc.node == n
  }

  function Holders(s: State, n: Node): set<Thread> {
    set t | t in s.pc && Holds(s.pc[t], n)
  }

  /// The number of transient references.
  function Transient(s: State, n: Node): nat {
    |Holders(s, n)|
  }

  predicate Flagged(st: Status) {
    st.Pending? || st.Adding?
  }

  /// The reference that belongs to the list itself.
  function ListRef(st: Status): nat {
    if st.OnList? || st.Publishing? || st.Taken? then 1 else 0
  }

  /// The word counts the list's reference and the transient ones, and a flagged node with a
  /// reference left is not forgotten.
  predicate RefsOk(s: State, n: Node) {
    && s.Refs(n) == (if Flagged(s.Status(n)) then SHOULD_BE_ON_FREELIST else 0) + ListRef(s.Status(n)) + Transient(s, n)
    && (s.Status(n).Pending? ==> Transient(s, n) > 0)
    && (s.Status(n).Adding? ==> Transient(s, n) == 0)
  }

  /// A node in the care of a thread is the node that thread is working on.
  predicate StatusOk(s: State, n: Node) {
    match s.Status(n)
    case AddCalled(t) => t in s.pc && s.pc[t] == SetFlag(n)
    case Adding(t) =>
      t in s.pc && (s.pc[t].LoadHeadToAdd? || s.pc[t].StoreNext? || s.pc[t].StoreRefs?) && s.pc[t].node == n
    case Publishing(t) =>
      t in s.pc && (s.pc[t].Publish? || s.pc[t].Withdraw?) && s.pc[t].node == n
    case Taken(t) => t in s.pc && s.pc[t] == ReleaseTwice(n)
    case _ => true
  }

  predicate PcOk(s: State, t: Thread)
    requires t in s.pc
  {
    match s.pc[t]
    case SetFlag(n) => s.Status(n) == AddCalled(t)
    case LoadHeadToAdd(n, _) => s.Status(n) == Adding(t)
    case StoreNext(n, _, _) => s.Status(n) == Adding(t)
    case StoreRefs(n, h, _) => s.Status(n) == Adding(t) && s.Next(n) == h
    case Publish(n, h, _) => s.Status(n) == Publishing(t) && s.Next(n) == h
    case Withdraw(n, _, _) => s.Status(n) == Publishing(t)
    case Acquire(n, seen) => RefCount(seen) != 0
    case Unlink(n, x) => s.Next(n) == x
    case ReleaseTwice(n) => s.Status(n) == Taken(t)
    case _ => true
  }

  function LinkAt(l: seq<Node>, i: nat): Link {
    if i < |l| then To(l[i]) else Null
  }

  /// `list` is the chain of nodes that starts at `head`; no node occurs in it twice.
  ghost predicate ListOk(s: State) {
    && s.head == LinkAt(s.list, 0)
    && (forall i {:trigger s.Next(s.list[i])} | 0 <= i < |s.list| :: s.Next(s.list[i]) == LinkAt(s.list, i + 1))
    && (forall i, j | 0 <= i < j < |s.list| :: s.list[i] != s.list[j])
    && (forall n :: n in s.list <==> s.Status(n).OnList?)
  }

  ghost predicate Inv(s: State) {
    && |s.pc| < SHOULD_BE_ON_FREELIST - 2
    && ListOk(s)
    && (forall n: Node :: RefsOk(s, n))
    && (forall n: Node :: StatusOk(s, n))
    && (forall t <- s.pc :: PcOk(s, t))
  }

  lemma TransientAfter(s: State, s': State, t: Thread, p: PC, n: Node)
    requires t in s.pc && s'.pc == s.pc[t := p]
    ensures Transient(s', n) == Transient(s, n) + (if Holds(p, n) then 1 else 0) - (if Holds(s.pc[t], n) then 1 else 0)
    ensures Transient(s, n) <= |s.pc|
    ensures |s'.pc| == |s.pc|
  {
    assert Holders(s', n) == if Holds(p, n) then Holders(s, n) + {t} else Holders(s, n) - {t};
    assert t in Holders(s, n) <==> Holds(s.pc[t], n);
    assert s'.pc.Keys == s.pc.Keys;
    SubsetSize(Holders(s, n), s.pc.Keys);
  }

  lemma HolderCounts(s: State, t: Thread, n: Node)
    requires t in s.pc && Holds(s.pc[t], n)
    ensures Transient(s, n) > 0
  {
    assert t in Holders(s, n);
  }

  lemma SubsetSize(a: set<Thread>, b: set<Thread>)
    requires a <= b
    ensures |a| <= |b|
  {
    assert b == a + (b - a);
  }

  /// In the care of a thread.
  predicate Busy(st: Status) {
    st.AddCalled? || st.Adding? || st.Publishing? || st.Taken?
  }

  /// A thread at `p` holds no reference to, and has no care of, any node but `n`.
  predicate OnlyFor(p: PC, n: Node) {
    p.Idle? || p.LoadHead? || p.LoadRefs? || p.Acquire? || p.node == n
  }

  /// What a step of `t` that touches only node `n` leaves alone.
  ghost predicate Touches(s: State, s': State, t: Thread, n: Node) {
    && t in s.pc && t in s'.pc && s'.pc == s.pc[t := s'.pc[t]]
    && (forall m: Node | m != n :: s'.Refs(m) == s.Refs(m))
    && (forall m: Node | m != n :: s'.Next(m) == s.Next(m))
    && (forall m: Node | m != n :: s'.Status(m) == s.Status(m))
    && OnlyFor(s.pc[t], n) && OnlyFor(s'.pc[t], n)
    && (s'.Status(n) != s.Status(n) && Busy(s.Status(n)) ==> s.Status(n).thread == t)
    && (s'.Next(n) != s.Next(n) ==> s.Status(n) == Adding(t))
  }

  /// The invariant as seen by a thread and the node it works on.
  ghost predicate LocalInv(s: State, t: Thread, n: Node) {
    && |s.pc| < SHOULD_BE_ON_FREELIST - 2
    && t in s.pc && PcOk(s, t) && RefsOk(s, n) && StatusOk(s, n)
  }

  lemma FrameNode(s: State, s': State, t: Thread, n: Node, m: Node)
    requires Touches(s, s', t, n) && m != n && RefsOk(s, m) && StatusOk(s, m)
    ensures RefsOk(s', m) && StatusOk(s', m)
  {
    TransientAfter(s, s', t, s'.pc[t], m);
  }

  lemma FramePc(s: State, s': State, t: Thread, n: Node, u: Thread)
    requires Touches(s, s', t, n) && LocalInv(s, u, n) && u != t
    ensures PcOk(s', u)
  {
    if Holds(s.pc[u], n) { HolderCounts(s, u, n); }
  }

  /// A step that keeps the invariant at the one node and the one thread it touches keeps it everywhere.
  lemma Frame(s: State, s': State, t: Thread, n: Node)
    requires Inv(s) && Touches(s, s', t, n) && ListOk(s') && LocalInv(s', t, n)
    ensures Inv(s')
  {
    forall m: Node ensures RefsOk(s', m) && StatusOk(s', m) {
      assert RefsOk(s, m) && StatusOk(s, m);
      if m != n { FrameNode(s, s', t, n, m); }
    }
    forall u | u in s'.pc ensures PcOk(s', u) {
      assert u in s.pc && PcOk(s, u) && RefsOk(s, n) && StatusOk(s, n);
      if u != t { FramePc(s, s', t, n, u); }
    }
  }

  /// Neither the links of the list nor its membership change.
  predicate SameList(s: State, s': State, n: Node) {
    && s'.head == s.head && s'.list == s.list
    && (s'.Status(n).OnList? <==> s.Status(n).OnList?)
    && (s.Status(n).OnList? ==> s'.Next(n) == s.Next(n))
  }

  lemma FrameList(s: State, s': State, t: Thread, n: Node)
    requires ListOk(s) && Touches(s, s', t, n) && SameList(s, s', n)
    ensures ListOk(s')
  {
    forall i | 0 <= i < |s'.list| ensures s'.Next(s'.list[i]) == LinkAt(s'.list, i + 1) {
      assert s.list[i] in s.list;
      assert s.Next(s.list[i]) == LinkAt(s.list, i + 1);
    }
  }

  lemma IdleTouches(s: State, t: Thread, q: Request, n: Node)
    requires t in s.pc && StatusOk(s, n) && s.pc[t].Idle? && n == Target(s.pc[t], q)
    ensures Touches(s, Step(s, t, q), t, n)
  {
    assert s.pc == s.pc[t := s.pc[t]];
  }

  lemma IdleStep(s: State, t: Thread, q: Request, n: Node)
    requires LocalInv(s, t, n) && s.pc[t].Idle? && n == Target(s.pc[t], q)
    ensures LocalInv(Step(s, t, q), t, n)
    ensures SameList(s, Step(s, t, q), n)
  {
    var s' := Step(s, t, q);
    assert s.pc == s.pc[t := s.pc[t]];
    TransientAfter(s, s', t, s'.pc[t], n);
  }

  lemma SetFlagStep(s: State, t: Thread, q: Request, n: Node)
    requires LocalInv(s, t, n) && s.pc[t].SetFlag? && n == Target(s.pc[t], q)
    ensures Touches(s, Step(s, t, q), t, n) && LocalInv(Step(s, t, q), t, n)
    ensures SameList(s, Step(s, t, q), n)
  {
    var s' := Step(s, t, q);
    TransientAfter(s, s', t, s'.pc[t], n);
  }

  lemma LoadHeadToAddStep(s: State, t: Thread, q: Request, n: Node)
    requires LocalInv(s, t, n) && s.pc[t].LoadHeadToAdd? && n == Target(s.pc[t], q)
    ensures Touches(s, Step(s, t, q), t, n) && LocalInv(Step(s, t, q), t, n)
    ensures SameList(s, Step(s, t, q), n)
  {
    var s' := Step(s, t, q);
    TransientAfter(s, s', t, s'.pc[t], n);
  }

  lemma StoreNextStep(s: State, t: Thread, q: Request, n: Node)
    requires LocalInv(s, t, n) && s.pc[t].StoreNext? && n == Target(s.pc[t], q)
    ensures Touches(s, Step(s, t, q), t, n) && LocalInv(Step(s, t, q), t, n)
    ensures SameList(s, Step(s, t, q), n)
  {
    var s' := Step(s, t, q);
    TransientAfter(s, s', t, s'.pc[t], n);
  }

  lemma StoreRefsStep(s: State, t: Thread, q: Request, n: Node)
    requires LocalInv(s, t, n) && s.pc[t].StoreRefs? && n == Target(s.pc[t], q)
    ensures Touches(s, Step(s, t, q), t, n) && LocalInv(Step(s, t, q), t, n)
    ensures SameList(s, Step(s, t, q), n)
  {
    var s' := Step(s, t, q);
    TransientAfter(s, s', t, s'.pc[t], n);
  }

  lemma PublishStep(s: State, t: Thread, q: Request, n: Node)
    requires LocalInv(s, t, n) && s.pc[t].Publish? && n == Target(s.pc[t], q)
    requires ListOk(s)
    ensures Touches(s, Step(s, t, q), t, n) && LocalInv(Step(s, t, q), t, n)
    ensures ListOk(Step(s, t, q)) || SameList(s, Step(s, t, q), n)
  {
    hide ListOk, FetchAdd, FetchSub, RefCount;
    var s' := Step(s, t, q);
    TransientAfter(s, s', t, s'.pc[t], n);
    if s.head == s.pc[t].head { PublishLinks(s, t, q, n); }
  }

  lemma PublishLinks(s: State, t: Thread, q: Request, n: Node)
    requires LocalInv(s, t, n) && s.pc[t].Publish? && n == Target(s.pc[t], q) && s.head == s.pc[t].head
    requires ListOk(s)
    ensures ListOk(Step(s, t, q))
  {
    hide RefsOk, FetchAdd, FetchSub, RefCount, LoopOn, Finish;
    var s' := Step(s, t, q);
    assert s.list == [] || s'.list[1] == s.list[0];
    forall i | 0 <= i < |s'.list| ensures s'.Next(s'.list[i]) == LinkAt(s'.list, i + 1) {
      if i > 0 { assert s.Next(s.list[i - 1]) == LinkAt(s.list, i); }
    }
  }

  lemma WithdrawStep(s: State, t: Thread, q: Request, n: Node)
    requires LocalInv(s, t, n) && s.pc[t].Withdraw? && n == Target(s.pc[t], q)
    ensures Touches(s, Step(s, t, q), t, n) && LocalInv(Step(s, t, q), t, n)
    ensures SameList(s, Step(s, t, q), n)
  {
    var s' := Step(s, t, q);
    TransientAfter(s, s', t, s'.pc[t], n);
  }

  lemma LoadHeadStep(s: State, t: Thread, q: Request, n: Node)
    requires LocalInv(s, t, n) && s.pc[t].LoadHead? && n == Target(s.pc[t], q)
    ensures Touches(s, Step(s, t, q), t, n) && LocalInv(Step(s, t, q), t, n)
    ensures SameList(s, Step(s, t, q), n)
  {
    var s' := Step(s, t, q);
    TransientAfter(s, s', t, s'.pc[t], n);
  }

  lemma LoadRefsStep(s: State, t: Thread, q: Request, n: Node)
    requires LocalInv(s, t, n) && s.pc[t].LoadRefs? && n == Target(s.pc[t], q)
    ensures Touches(s, Step(s, t, q), t, n) && LocalInv(Step(s, t, q), t, n)
    ensures SameList(s, Step(s, t, q), n)
  {
    var s' := Step(s, t, q);
    TransientAfter(s, s', t, s'.pc[t], n);
  }

  lemma AcquireTouches(s: State, t: Thread, q: Request, n: Node)
    requires t in s.pc && StatusOk(s, n) && s.pc[t].Acquire? && n == Target(s.pc[t], q)
    ensures Touches(s, Step(s, t, q), t, n)
  {
  }

  lemma AcquireStep(s: State, t: Thread, q: Request, n: Node)
    requires LocalInv(s, t, n) && s.pc[t].Acquire? && n == Target(s.pc[t], q)
    ensures LocalInv(Step(s, t, q), t, n)
    ensures SameList(s, Step(s, t, q), n)
  {
    var s' := Step(s, t, q);
    TransientAfter(s, s', t, s'.pc[t], n);
  }

  lemma ReadNextStep(s: State, t: Thread, q: Request, n: Node)
    requires LocalInv(s, t, n) && s.pc[t].ReadNext? && n == Target(s.pc[t], q)
    ensures Touches(s, Step(s, t, q), t, n) && LocalInv(Step(s, t, q), t, n)
    ensures SameList(s, Step(s, t, q), n)
  {
    var s' := Step(s, t, q);
    TransientAfter(s, s', t, s'.pc[t], n);
  }

  lemma UnlinkStep(s: State, t: Thread, q: Request, n: Node)
    requires LocalInv(s, t, n) && s.pc[t].Unlink? && n == Target(s.pc[t], q)
    requires ListOk(s)
    ensures Touches(s, Step(s, t, q), t, n) && LocalInv(Step(s, t, q), t, n)
    ensures ListOk(Step(s, t, q)) || SameList(s, Step(s, t, q), n)
  {
    hide FetchAdd, FetchSub, RefCount, LoopOn, Finish;
    var s' := Step(s, t, q);
    TransientAfter(s, s', t, s'.pc[t], n);
    if s.head == To(n) {
      assert s.Next(s.list[0]) == LinkAt(s.list, 1) && s.list == [n] + s'.list;
      forall i | 0 <= i < |s'.list| ensures s'.Next(s'.list[i]) == LinkAt(s'.list, i + 1) {
        assert s.Next(s.list[i + 1]) == LinkAt(s.list, i + 2);
      }
    }
  }

  lemma ReleaseTwiceStep(s: State, t: Thread, q: Request, n: Node)
    requires LocalInv(s, t, n) && s.pc[t].ReleaseTwice? && n == Target(s.pc[t], q)
    ensures Touches(s, Step(s, t, q), t, n) && LocalInv(Step(s, t, q), t, n)
    ensures SameList(s, Step(s, t, q), n)
  {
    var s' := Step(s, t, q);
    TransientAfter(s, s', t, s'.pc[t], n);
  }

  lemma ReleaseOnceStep(s: State, t: Thread, q: Request, n: Node)
    requires LocalInv(s, t, n) && s.pc[t].ReleaseOnce? && n == Target(s.pc[t], q)
    ensures Touches(s, Step(s, t, q), t, n) && LocalInv(Step(s, t, q), t, n)
    ensures SameList(s, Step(s, t, q), n)
  {
    var s' := Step(s, t, q);
    TransientAfter(s, s', t, s'.pc[t], n);
  }

  /// The one node a step of a thread at `p` touches.
  function Target(p: PC, q: Request): Node {
    if p.Idle? then (if q.CallAdd? || q.HandOver? then q.node else 0)
    else if p.LoadHead? then 0
    else p.node
  }

  lemma StepKeepsInv(s: State, t: Thread, q: Request)
    requires Inv(s) && t in s.pc
    ensures Inv(Step(s, t, q)) && Touches(s, Step(s, t, q), t, Target(s.pc[t], q))
  {
    var n := Target(s.pc[t], q);
    assert PcOk(s, t) && RefsOk(s, n) && StatusOk(s, n);
    match s.pc[t] {
      case Idle => IdleTouches(s, t, q, n); IdleStep(s, t, q, n);
      case SetFlag(_) => SetFlagStep(s, t, q, n);
      case LoadHeadToAdd(_, _) => LoadHeadToAddStep(s, t, q, n);
      case StoreNext(_, _, _) => StoreNextStep(s, t, q, n);
      case StoreRefs(_, _, _) => StoreRefsStep(s, t, q, n);
      case Publish(_, _, _) => PublishStep(s, t, q, n);
      case Withdraw(_, _, _) => WithdrawStep(s, t, q, n);
      case LoadHead => LoadHeadStep(s, t, q, n);
      case LoadRefs(_) => LoadRefsStep(s, t, q, n);
      case Acquire(_, _) => AcquireTouches(s, t, q, n); AcquireStep(s, t, q, n);
      case ReadNext(_) => ReadNextStep(s, t, q, n);
      case Unlink(_, _) => UnlinkStep(s, t, q, n);
      case ReleaseTwice(_) => ReleaseTwiceStep(s, t, q, n);
      case ReleaseOnce(_, _) => ReleaseOnceStep(s, t, q, n);
    }
    if SameList(s, Step(s, t, q), n) { FrameList(s, Step(s, t, q), t, n); }
    Frame(s, Step(s, t, q), t, n);
  }

  // ------------------------------------------------------------- theorems

  ghost predicate Init(s: State) {
    && |s.pc| < SHOULD_BE_ON_FREELIST - 2
    && s.head == Null && s.list == []
    && (forall t <- s.pc :: s.pc[t] == Idle)
    && (forall n: Node :: s.Refs(n) == 0 && s.Status(n).Client?)
  }

  /// A schedule: who moves next, and what it asks for when it is idle.
  type Schedule = seq<(Thread, Request)>

  function Move(s: State, m: (Thread, Request)): State {
    if m.0 in s.pc then Step(s, m.0, m.1) else s
  }

  function Run(s: State, schedule: Schedule): State
    decreases |schedule|
  {
    if schedule == [] then s
    else
      Run(Move(s, schedule[0]), schedule[1..])
  }

  /// Every interleaving of any number of calls keeps the invariant.
  lemma {:induction false} RunKeepsInv(s: State, schedule: Schedule)
    requires Inv(s)
    ensures Inv(Run(s, schedule))
    decreases |schedule|
  {
    if schedule != [] {
      if schedule[0].0 in s.pc { StepKeepsInv(s, schedule[0].0, schedule[0].1); }
      RunKeepsInv(Move(s, schedule[0]), schedule[1..]);
    }
  }

  lemma InitHasInv(s: State)
    requires Init(s)
    ensures Inv(s)
  {
    forall n: Node ensures RefsOk(s, n) && StatusOk(s, n) {
      assert Holders(s, n) == {};
    }
  }

  /// The assertion in `try_get`: a node just unlinked is not flagged for the list again, no other
  /// thread is taking it, and it is neither on the list nor in the hands of a client.
  lemma TakenByOneThread(s: State, t: Thread, u: Thread, n: Node)
    requires Inv(s) && t in s.pc && u in s.pc
    requires s.pc[t] == ReleaseTwice(n)
    ensures s.Refs(n) / SHOULD_BE_ON_FREELIST == 0
    ensures s.pc[u] == ReleaseTwice(n) ==> u == t
    ensures n !in s.list && !s.Status(n).Client?
  {
    assert PcOk(s, t) && PcOk(s, u) && RefsOk(s, n);
    TransientAfter(s, s.Goto(t, s.pc[t]), t, s.pc[t], n);
  }

  /// `freeListNext` of a node never changes while another thread holds a reference to it.
  lemma NextIsStable(s: State, t: Thread, q: Request, u: Thread, n: Node)
    requires Inv(s) && t in s.pc && u in s.pc && u != t && Holds(s.pc[u], n)
    ensures Step(s, t, q).Next(n) == s.Next(n)
  {
    assert PcOk(s, t) && RefsOk(s, n);
    HolderCounts(s, u, n);
  }

  ghost predicate Quiescent(s: State) {
    forall t <- s.pc :: s.pc[t] == Idle
  }

  lemma QuiescentNode(s: State, n: Node)
    requires Inv(s) && Quiescent(s)
    ensures n in s.list <==> !s.Status(n).Client?
    ensures s.Refs(n) == if n in s.list then 1 else 0
  {
    assert StatusOk(s, n) && RefsOk(s, n);
    assert Holders(s, n) == {};
  }

  /// Nothing is lost: when no call is in progress, every node that no client holds is on the
  /// acyclic chain from `head`, and the reference words are exactly 0 or 1.
  lemma NothingLost(s: State, schedule: Schedule, n: Node)
    requires Init(s) && Quiescent(Run(s, schedule))
    ensures var e := Run(s, schedule);
            && ListOk(e)
            && (n in e.list <==> !e.Status(n).Client?)
            && e.Refs(n) == (if n in e.list then 1 else 0)
  {
    InitHasInv(s);
    RunKeepsInv(s, schedule);
    QuiescentNode(Run(s, schedule), n);
  }

  // What clients see: a call `add(n)` that was accepted, and a call `try_get` that returns `n`.

  predicate Adds(s: State, m: (Thread, Request), n: Node) {
    m.0 in s.pc && s.pc[m.0].Idle? && m.1 == CallAdd(n) && s.Status(n) == Client(m.0)
  }

  predicate Gets(s: State, m: (Thread, Request), n: Node) {
    m.0 in s.pc && s.pc[m.0] == ReleaseTwice(n)
  }

  /// No run of the schedule adds (returns) node `n`.
  predicate NoAdd(s: State, schedule: Schedule, n: Node)
    decreases |schedule|
  {
    schedule == [] ||
    (!Adds(s, schedule[0], n) && NoAdd(Move(s, schedule[0]), schedule[1..], n))
  }

  predicate NoGet(s: State, schedule: Schedule, n: Node)
    decreases |schedule|
  {
    schedule == [] ||
    (!Gets(s, schedule[0], n) && NoGet(Move(s, schedule[0]), schedule[1..], n))
  }

  /// A client can only lose a node by adding it, and only gain one by getting it.
  lemma StatusStep(s: State, m: (Thread, Request), n: Node)
    requires m.0 in s.pc && PcOk(s, m.0)
    requires s.pc[m.0].Unlink? && s.head == To(s.pc[m.0].node) ==> s.Status(s.pc[m.0].node).OnList?
    requires s.pc[m.0].ReleaseOnce? && s.pc[m.0].node == n && s.Status(n).Client? ==> s.Refs(n) < SHOULD_BE_ON_FREELIST
    ensures s.Status(n).Client? && !Adds(s, m, n) ==> Move(s, m).Status(n).Client? && !Gets(s, m, n)
    ensures !s.Status(n).Client? && !Gets(s, m, n) ==> !Move(s, m).Status(n).Client?
  {}

  lemma MoveKeepsInv(s: State, m: (Thread, Request), n: Node)
    requires Inv(s)
    ensures Inv(Move(s, m))
    ensures s.Status(n).Client? && !Adds(s, m, n) ==> Move(s, m).Status(n).Client? && !Gets(s, m, n)
    ensures !s.Status(n).Client? && !Gets(s, m, n) ==> !Move(s, m).Status(n).Client?
  {
    var (t, q) := m;
    if t in s.pc {
      StepKeepsInv(s, t, q);
      assert PcOk(s, t) && RefsOk(s, n);
      if s.pc[t].Unlink? && s.head == To(s.pc[t].node) { assert s.list[0] in s.list; }
      TransientAfter(s, s.Goto(t, s.pc[t]), t, s.pc[t], n);
      StatusStep(s, m, n);
    }
  }

  /// No node is handed to two clients: once a client has it, nobody else gets it until it is added again.
  lemma {:induction false} NotHandedOutTwice(s: State, schedule: Schedule, n: Node)
    requires Inv(s) && s.Status(n).Client? && NoAdd(s, schedule, n)
    ensures NoGet(s, schedule, n) && Run(s, schedule).Status(n).Client?
    decreases |schedule|
  {
    if schedule != [] {
      MoveKeepsInv(s, schedule[0], n);
      NotHandedOutTwice(Move(s, schedule[0]), schedule[1..], n);
    }
  }

  /// A node that was added and not taken again is on the list as soon as the calls in progress end.
  lemma {:induction false} AddedNodeStays(s: State, schedule: Schedule, n: Node)
    requires Inv(s) && !s.Status(n).Client? && NoGet(s, schedule, n)
    ensures !Run(s, schedule).Status(n).Client?
    ensures Quiescent(Run(s, schedule)) ==> n in Run(s, schedule).list
    decreases |schedule|
  {
    if schedule == [] {
      if Quiescent(s) { QuiescentNode(s, n); }
    } else {
      MoveKeepsInv(s, schedule[0], n);
      AddedNodeStays(Move(s, schedule[0]), schedule[1..], n);
    }
  }
}
