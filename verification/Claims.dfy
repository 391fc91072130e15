/// How consumers of one producer's sub-queue take indices without ever passing the tail
/// (concurrentqueue.h, the counters of ProducerBase and the claim part of `dequeue` and
/// `dequeue_bulk`; `dequeue` is the case max == 1).
///
/// A consumer optimistically adds what it wants to `optimistic`, looks at the tail again and
/// gives back, through `overcommit`, what turns out not to be there.  The overcommit it
/// subtracts was read before, so it may be stale.  The counters are natural numbers; every
/// decision is taken on their 64-bit words.  `tickets` is a history variable: one entry for
/// each addition to `optimistic`, in order.
module Claims {
  import opened Index

  type Thread = nat

  datatype PC =
    | Idle
    | LoadFirstTail(max: nat)
    | LoadOvercommit(max: nat, tail: nat)
    | LoadOptimistic(max: nat, tail: nat, over: nat)
    | Reserve(want: nat, over: nat)
    | LoadTail(count: nat, want: nat, over: nat, k: nat)    // k: its ticket (history)
    | GiveBack(amount: nat, granted: nat, k: nat)
    | Advance(granted: nat, k: nat)

  datatype Ticket = Ticket(
    holder: Thread,
    start: nat,       // the value of `optimistic` the holder's addition found
    want: nat,
    seen: nat,        // the overcommit the holder works with
    decided: bool,
    grant: nat,       // how many of the wanted elements the holder found to be there
    returned: nat,    // how many it has given back
    taken: nat)       // how many it has added to `head`

  datatype State = State(
    tail: nat,
    head: nat,
    optimistic: nat,
    overcommit: nat,
    pc: map<Thread, PC>,
    tickets: seq<Ticket>)
  {
    function Goto(t: Thread, p: PC): State { this.(pc := pc[t := p]) }

    // history
    function Decide(k: nat, granted: nat): State {
      if k < |tickets| then this.(tickets := tickets[k := tickets[k].(decided := true, grant := granted)]) else this
    }
    function Return(k: nat, amount: nat): State {
      if k < |tickets| then this.(tickets := tickets[k := tickets[k].(returned := amount)]) else this
    }
    function Take(k: nat, granted: nat): State {
      if k < |tickets| then this.(tickets := tickets[k := tickets[k].(taken := granted)]) else this
    }
  }

  datatype Request = Dequeue(max: nat) | Publish(n: nat) | Go

  // ---------------------------------------------------------------- steps

  /// tail - (count - over), as computed on 64-bit words.
  function Available(tail: nat, count: nat, over: nat): nat {
    Wrap(Wrap(tail) - Wrap(Wrap(count) - Wrap(over)))
  }

  function Min(a: nat, b: nat): nat {
    if a < b then a else b
  }

  /// One step of `t`; an idle thread may be the producer, which publishes what it has enqueued.
  function Step(s: State, t: Thread, q: Request): State
    requires t in s.pc
  {
    match s.pc[t]
    case Idle =>
      (match q
       case Dequeue(max) => s.Goto(t, LoadFirstTail(max))
       case Publish(n) => s.(tail := s.tail + n)
       case Go => s)
    case LoadFirstTail(max) => s.Goto(t, LoadOvercommit(max, s.tail))
    case LoadOvercommit(max, tail) => s.Goto(t, LoadOptimistic(max, tail, s.overcommit))
    case LoadOptimistic(max, tail, over) =>
      var desired := Available(tail, s.optimistic, over);
      if CircularLessThan(0, desired) then s.Goto(t, Reserve(Min(desired, max), over)) else s.Goto(t, Idle)
    case Reserve(want, over) =>
      s.(optimistic := s.optimistic + want,
         tickets := s.tickets + [Ticket(t, s.optimistic, want, over, false, 0, 0, 0)])
       .Goto(t, LoadTail(s.optimistic, want, over, |s.tickets|))
    case LoadTail(count, want, over, k) =>
      var available := Available(s.tail, count, over);
      var granted := if CircularLessThan(0, available) then Min(want, available) else 0;
      s.Decide(k, granted)
       .Goto(t, if CircularLessThan(0, available) && granted == want then Advance(granted, k)
                else GiveBack(want - granted, granted, k))
    case GiveBack(amount, granted, k) =>
      s.(overcommit := s.overcommit + amount)
       .Return(k, amount)
       .Goto(t, if granted > 0 then Advance(granted, k) else Idle)
    case Advance(granted, k) =>
      s.(head := s.head + granted)
       .Take(k, granted)
       .Goto(t, Idle)
  }

  /// The claim is decided on words, so the true difference must be below 2^63 at that moment.
  predicate InRange(s: State, t: Thread) {
    t in s.pc && s.pc[t].LoadTail? ==> -HALF < s.tail - (s.pc[t].count - s.pc[t].over) < HALF
  }

  /// A step of the claim protocol touches the head index only by adding a grant to it.
  lemma StepEffect(c: State, t: Thread, q: Request)
    requires t in c.pc && !q.Publish?
    ensures var c' := Step(c, t, q);
            && c'.tail == c.tail && t in c'.pc && c'.pc == c.pc[t := c'.pc[t]]
            && c'.head == c.head + (if c.pc[t].Advance? then c.pc[t].granted else 0)
            && (c.pc[t].Advance? ==> c'.pc[t] == Idle)
  {
    assert c.pc == c.pc[t := c.pc[t]];
  }

  // ------------------------------------------------------------ invariant

  datatype Column = Want | Granted | Returned | Taken

  function Cell(x: Ticket, c: Column): nat {
    match c
    case Want => x.want
    case Granted => x.grant
    case Returned => x.returned
    case Taken => x.taken
  }

  function Sum(ts: seq<Ticket>, c: Column): nat {
    if ts == [] then 0 else Sum(ts[..|ts| - 1], c) + Cell(ts[|ts| - 1], c)
  }

  predicate TicketOk(s: State, k: nat)
    requires k < |s.tickets|
  {
    var x := s.tickets[k];
    && x.start == Sum(s.tickets[..k], Want)
    // what was read of `overcommit` was given back by earlier tickets
    && x.seen <= Sum(s.tickets[..k], Returned)
    && x.grant + x.returned <= x.want < HALF && x.taken <= x.grant
    && (!x.decided ==> x.grant == 0 && x.returned == 0)
    && (x.grant > 0 ==> x.start - x.seen + x.grant <= s.tail)
  }

  predicate Finished(x: Ticket) {
    x.decided && x.grant + x.returned == x.want && x.taken == x.grant
  }

  predicate HolderOk(s: State, k: nat)
    requires k < |s.tickets|
  {
    var t := s.tickets[k].holder;
    Finished(s.tickets[k]) ||
    (t in s.pc && (s.pc[t].LoadTail? || s.pc[t].GiveBack? || s.pc[t].Advance?) && s.pc[t].k == k)
  }

  predicate PcOk(s: State, t: Thread)
    requires t in s.pc
  {
    match s.pc[t]
    case LoadOptimistic(_, _, over) => over <= s.overcommit
    case Reserve(want, over) => over <= s.overcommit && want < HALF
    case LoadTail(count, want, over, k) =>
      k < |s.tickets| &&
      var x := s.tickets[k];
      !x.decided && x.holder == t && x.start == count && x.want == want && x.seen == over
    case GiveBack(amount, granted, k) =>
      k < |s.tickets| &&
      var x := s.tickets[k];
      x.decided && x.holder == t && x.returned == 0 && x.taken == 0 && x.grant == granted && amount == x.want - granted
    case Advance(granted, k) =>
      k < |s.tickets| &&
      var x := s.tickets[k];
      x.decided && x.holder == t && x.returned == x.want - granted && x.taken == 0 && x.grant == granted
    case _ => true
  }

  ghost predicate Inv(s: State) {
    && s.optimistic == Sum(s.tickets, Want)
    && s.overcommit == Sum(s.tickets, Returned)
    && s.head == Sum(s.tickets, Taken)
    && (forall k | 0 <= k < |s.tickets| :: TicketOk(s, k))
    && (forall k | 0 <= k < |s.tickets| :: HolderOk(s, k))
    && (forall t <- s.pc :: PcOk(s, t))
  }

  lemma SumAppend(ts: seq<Ticket>, x: Ticket, c: Column)
    ensures Sum(ts + [x], c) == Sum(ts, c) + Cell(x, c)
  {
    assert (ts + [x])[..|ts|] == ts;
  }

  lemma {:induction false} SumAmend(ts: seq<Ticket>, k: nat, x: Ticket, c: Column)
    requires k < |ts|
    ensures Sum(ts[k := x], c) == Sum(ts, c) - Cell(ts[k], c) + Cell(x, c)
  {
    var n := |ts| - 1;
    if k < n {
      SumAmend(ts[..n], k, x, c);
      assert ts[k := x][..n] == ts[..n][k := x];
    } else {
      assert ts[k := x][..n] == ts[..n];
    }
  }

  lemma {:induction false} SumCompare(ts: seq<Ticket>)
    requires forall x <- ts :: x.grant + x.returned <= x.want && x.taken <= x.grant
    ensures Sum(ts, Granted) + Sum(ts, Returned) <= Sum(ts, Want)
    ensures Sum(ts, Taken) <= Sum(ts, Granted)
  {
    if ts != [] { SumCompare(ts[..|ts| - 1]); }
  }

  /// The crux: the last ticket with a grant accounts for all the earlier ones, because whatever
  /// they did not give back is counted in its `start`, and its own grant was checked against the tail.
  lemma {:induction false} GrantsWithinTail(s: State, n: nat)
    requires n <= |s.tickets| && forall k | 0 <= k < |s.tickets| :: TicketOk(s, k)
    ensures Sum(s.tickets[..n], Granted) <= s.tail
  {
    if n > 0 {
      var x := s.tickets[n - 1];
      assert s.tickets[..n][..n - 1] == s.tickets[..n - 1];
      if x.grant == 0 {
        GrantsWithinTail(s, n - 1);
      } else {
        forall y | y in s.tickets[..n - 1] ensures y.grant + y.returned <= y.want && y.taken <= y.grant {
          var k :| 0 <= k < n - 1 && s.tickets[k] == y;
          assert TicketOk(s, k);
        }
        SumCompare(s.tickets[..n - 1]);
        assert TicketOk(s, n - 1);
      }
    }
  }

  /// Amending one unfinished ticket of the stepping thread keeps the rest of the history in order.
  lemma FrameTickets(s: State, s': State, t: Thread, k: nat, x: Ticket)
    requires Inv(s) && t in s.pc && k < |s.tickets| && s'.tickets == s.tickets[k := x]
    requires s'.tail >= s.tail && t in s'.pc && s'.pc == s.pc[t := s'.pc[t]]
    requires x.(decided := true, grant := 0, returned := 0, taken := 0) ==
              s.tickets[k].(decided := true, grant := 0, returned := 0, taken := 0)
    requires s.tickets[k].returned <= x.returned && s.tickets[k].holder == t
    requires x.grant + x.returned <= x.want < HALF && x.taken <= x.grant
              && (!x.decided ==> x.grant == 0 && x.returned == 0)
    requires x.grant > 0 ==> x.start - x.seen + x.grant <= s'.tail
    requires HolderOk(s', k)
    requires (s.pc[t].LoadTail? || s.pc[t].GiveBack? || s.pc[t].Advance?) && s.pc[t].k == k
    ensures forall j | 0 <= j < |s'.tickets| :: TicketOk(s', j)
    ensures forall j | 0 <= j < |s'.tickets| :: HolderOk(s', j)
  {
    forall j | 0 <= j < |s'.tickets| ensures TicketOk(s', j) && HolderOk(s', j) {
      assert TicketOk(s, j) && HolderOk(s, j);
      if k < j {
        assert s'.tickets[..j] == s.tickets[..j][k := x];
        SumAmend(s.tickets[..j], k, x, Want);
        SumAmend(s.tickets[..j], k, x, Returned);
      } else {
        assert s'.tickets[..j] == s.tickets[..j];
      }
    }
  }

  lemma SumsAfter(s: State, k: nat, x: Ticket)
    requires Inv(s) && k < |s.tickets|
    ensures forall c :: Sum(s.tickets[k := x], c) == Sum(s.tickets, c) - Cell(s.tickets[k], c) + Cell(x, c)
  {
    forall c ensures Sum(s.tickets[k := x], c) == Sum(s.tickets, c) - Cell(s.tickets[k], c) + Cell(x, c) {
      SumAmend(s.tickets, k, x, c);
    }
  }

  lemma ReserveStep(s: State, t: Thread, q: Request)
    requires Inv(s) && t in s.pc && s.pc[t].Reserve?
    ensures Inv(Step(s, t, q))
  {
    var s' := Step(s, t, q);
    var n, x := |s.tickets|, s'.tickets[|s.tickets|];
    forall c ensures Sum(s'.tickets, c) == Sum(s.tickets, c) + Cell(x, c) { SumAppend(s.tickets, x, c); }
    forall j | 0 <= j < |s'.tickets| ensures TicketOk(s', j) && HolderOk(s', j) {
      if j < n {
        assert TicketOk(s, j) && HolderOk(s, j);
        assert s'.tickets[..j] == s.tickets[..j];
      } else {
        assert s'.tickets[..j] == s.tickets && PcOk(s, t);
      }
    }
    forall u | u in s'.pc ensures PcOk(s', u) { assert u in s.pc && PcOk(s, u); }
  }

  lemma AvailableIsExact(tail: nat, count: nat, over: nat)
    requires -HALF < tail - (count - over) < HALF
    ensures CircularLessThan(0, Available(tail, count, over)) <==> count - over < tail
    ensures count - over < tail ==> Available(tail, count, over) == tail - (count - over)
  {
    WrapDifference(count, over);
    WrapDifference(tail, count - over);
    CircularLessThanIsLess(0, tail - (count - over));
    if count - over < tail { WrapSmall(tail - (count - over)); }
  }

  lemma LoadTailStep(s: State, t: Thread, q: Request)
    requires Inv(s) && t in s.pc && s.pc[t].LoadTail? && InRange(s, t)
    ensures Inv(Step(s, t, q))
  {
    var s', k := Step(s, t, q), s.pc[t].k;
    assert PcOk(s, t) && TicketOk(s, k) && HolderOk(s, k);
    AvailableIsExact(s.tail, s.pc[t].count, s.pc[t].over);
    var x := s'.tickets[k];
    FrameTickets(s, s', t, k, x);
    SumsAfter(s, k, x);
    forall u | u in s'.pc ensures PcOk(s', u) { assert u in s.pc && PcOk(s, u); }
  }

  lemma GiveBackStep(s: State, t: Thread, q: Request)
    requires Inv(s) && t in s.pc && s.pc[t].GiveBack?
    ensures Inv(Step(s, t, q))
  {
    var s', k := Step(s, t, q), s.pc[t].k;
    assert PcOk(s, t) && TicketOk(s, k) && HolderOk(s, k);
    var x := s'.tickets[k];
    FrameTickets(s, s', t, k, x);
    SumsAfter(s, k, x);
    forall u | u in s'.pc ensures PcOk(s', u) { assert u in s.pc && PcOk(s, u); }
  }

  lemma AdvanceStep(s: State, t: Thread, q: Request)
    requires Inv(s) && t in s.pc && s.pc[t].Advance?
    ensures Inv(Step(s, t, q))
  {
    var s', k := Step(s, t, q), s.pc[t].k;
    assert PcOk(s, t) && TicketOk(s, k) && HolderOk(s, k);
    var x := s'.tickets[k];
    FrameTickets(s, s', t, k, x);
    SumsAfter(s, k, x);
    forall u | u in s'.pc ensures PcOk(s', u) { assert u in s.pc && PcOk(s, u); }
  }

  lemma AvailableIsSmall(tail: nat, count: nat, over: nat)
    ensures CircularLessThan(0, Available(tail, count, over)) ==> Available(tail, count, over) < HALF
  {}

  lemma LoadStep(s: State, t: Thread, q: Request)
    requires Inv(s) && t in s.pc
    requires !s.pc[t].Reserve? && !s.pc[t].LoadTail? && !s.pc[t].GiveBack? && !s.pc[t].Advance?
    ensures Inv(Step(s, t, q))
  {
    hide Available, CircularLessThan, Sum;
    if s.pc[t].LoadOptimistic? { AvailableIsSmall(s.pc[t].tail, s.optimistic, s.pc[t].over); }
    var s' := Step(s, t, q);
    assert s'.tickets == s.tickets && s'.tail >= s.tail;
    assert s'.pc.Keys == s.pc.Keys && forall u <- s.pc | u != t :: s'.pc[u] == s.pc[u];
    forall j | 0 <= j < |s'.tickets| ensures TicketOk(s', j) && HolderOk(s', j) {
      assert TicketOk(s, j) && HolderOk(s, j);
    }
    forall u | u in s'.pc ensures PcOk(s', u) { assert u in s.pc && PcOk(s, u); }
  }

  /// The producer may publish at any time.
  lemma PublishKeepsInv(s: State, n: nat)
    requires Inv(s)
    ensures Inv(s.(tail := s.tail + n))
  {
    var s' := s.(tail := s.tail + n);
    forall j | 0 <= j < |s'.tickets| ensures TicketOk(s', j) && HolderOk(s', j) {
      assert TicketOk(s, j) && HolderOk(s, j);
    }
    forall u | u in s'.pc ensures PcOk(s', u) { assert PcOk(s, u); }
  }

  lemma StepKeepsInv(s: State, t: Thread, q: Request)
    requires Inv(s) && t in s.pc && InRange(s, t)
    ensures Inv(Step(s, t, q))
  {
    match s.pc[t] {
      case Reserve(_, _) => ReserveStep(s, t, q);
      case LoadTail(_, _, _, _) => LoadTailStep(s, t, q);
      case GiveBack(_, _, _) => GiveBackStep(s, t, q);
      case Advance(_, _) => AdvanceStep(s, t, q);
      case _ => LoadStep(s, t, q);
    }
  }

  // ------------------------------------------------------------- theorems

  ghost predicate Init(s: State) {
    && s.tail == s.head == s.optimistic == s.overcommit == 0 && s.tickets == []
    && Quiescent(s)
  }

  ghost predicate Quiescent(s: State) {
    forall t <- s.pc :: s.pc[t] == Idle
  }

  lemma InitHasInv(s: State)
    requires Init(s)
    ensures Inv(s)
  {}

  type Schedule = seq<(Thread, Request)>

  function Move(s: State, m: (Thread, Request)): State {
    if m.0 in s.pc then Step(s, m.0, m.1) else s
  }

  function Run(s: State, schedule: Schedule): State
    decreases |schedule|
  {
    if schedule == [] then s else Run(Move(s, schedule[0]), schedule[1..])
  }

  /// No consumer sleeps between its loads until the counters have moved by 2^63.
  predicate NoWrapAround(s: State, schedule: Schedule)
    decreases |schedule|
  {
    schedule == [] || (InRange(s, schedule[0].0) && NoWrapAround(Move(s, schedule[0]), schedule[1..]))
  }

  lemma {:induction false} RunKeepsInv(s: State, schedule: Schedule)
    requires Inv(s) && NoWrapAround(s, schedule)
    ensures Inv(Run(s, schedule))
    decreases |schedule|
  {
    if schedule != [] {
      if schedule[0].0 in s.pc { StepKeepsInv(s, schedule[0].0, schedule[0].1); }
      RunKeepsInv(Move(s, schedule[0]), schedule[1..]);
    }
  }

  lemma {:induction false} SumPrefix(ts: seq<Ticket>, k: nat, c: Column)
    requires k <= |ts|
    ensures Sum(ts[..k], c) <= Sum(ts, c)
    decreases |ts|
  {
    if k < |ts| {
      var n := |ts| - 1;
      assert ts[..n][..k] == ts[..k];
      SumPrefix(ts[..n], k, c);
    } else {
      assert ts[..k] == ts;
    }
  }

  /// As long as fewer than 2^63 elements have been enqueued and asked for, every decision is exact.
  lemma CountersInRange(s: State, t: Thread)
    requires Inv(s) && s.tail < HALF && s.optimistic < HALF
    ensures InRange(s, t)
  {
    if t in s.pc && s.pc[t].LoadTail? {
      var k := s.pc[t].k;
      assert PcOk(s, t) && TicketOk(s, k);
      forall x <- s.tickets[..k] ensures x.grant + x.returned <= x.want && x.taken <= x.grant {
        var i :| 0 <= i < k && s.tickets[i] == x;
        assert TicketOk(s, i);
      }
      SumCompare(s.tickets[..k]);
      SumPrefix(s.tickets, k, Want);
    }
  }

  lemma CountersGrow(s: State, t: Thread, q: Request)
    requires t in s.pc
    ensures s.tail <= Step(s, t, q).tail && s.optimistic <= Step(s, t, q).optimistic
  {}

  lemma {:induction false} RunCountersGrow(s: State, schedule: Schedule)
    ensures s.tail <= Run(s, schedule).tail && s.optimistic <= Run(s, schedule).optimistic
    decreases |schedule|
  {
    hide Step;
    if schedule != [] {
      if schedule[0].0 in s.pc { CountersGrow(s, schedule[0].0, schedule[0].1); }
      RunCountersGrow(Move(s, schedule[0]), schedule[1..]);
    }
  }

  /// A run in which fewer than 2^63 elements are enqueued and asked for never wraps around.
  lemma {:induction false} BoundedRunsDoNotWrap(s: State, schedule: Schedule)
    requires Inv(s) && Run(s, schedule).tail < HALF && Run(s, schedule).optimistic < HALF
    ensures NoWrapAround(s, schedule)
    decreases |schedule|
  {
    hide Inv, Step;
    if schedule != [] {
      RunCountersGrow(s, schedule);
      CountersInRange(s, schedule[0].0);
      if schedule[0].0 in s.pc { StepKeepsInv(s, schedule[0].0, schedule[0].1); }
      BoundedRunsDoNotWrap(Move(s, schedule[0]), schedule[1..]);
    }
  }

  /// What a thread has been granted and not yet added to `head`.
  function Outstanding(p: PC): nat {
    if p.GiveBack? || p.Advance? then p.granted else 0
  }

  function OutstandingOf(s: State, us: seq<Thread>): nat
    requires forall u <- us :: u in s.pc
  {
    if us == [] then 0 else OutstandingOf(s, us[..|us| - 1]) + Outstanding(s.pc[us[|us| - 1]])
  }

  /// The history as it will be once the threads `us` have taken what they were granted.
  lemma {:induction false} TakeAll(s: State, us: seq<Thread>) returns (ts: seq<Ticket>)
    requires Inv(s)
    requires forall u <- us :: u in s.pc
    requires forall i, j | 0 <= i < j < |us| :: us[i] != us[j]
    ensures |ts| == |s.tickets| && Sum(ts, Granted) == Sum(s.tickets, Granted)
    ensures forall k | 0 <= k < |ts| :: ts[k] == s.tickets[k]
              || (s.tickets[k].holder in us && ts[k] == s.tickets[k].(taken := s.tickets[k].grant))
    ensures Sum(ts, Taken) == s.head + OutstandingOf(s, us)
  {
    if us == [] { return s.tickets; }
    var n := |us| - 1;
    var u := us[n];
    ts := TakeAll(s, us[..n]);
    assert PcOk(s, u);
    if Outstanding(s.pc[u]) > 0 {
      var k := s.pc[u].k;
      var x := ts[k].(taken := ts[k].grant);
      assert u !in us[..n];
      SumAmend(ts, k, x, Taken);
      SumAmend(ts, k, x, Granted);
      ts := ts[k := x];
    }
  }

  /// `headIndex` plus everything granted and not yet added to it never exceeds `tailIndex`.
  lemma ClaimsStayBelowTail(s: State, schedule: Schedule, us: seq<Thread>)
    requires Init(s) && NoWrapAround(s, schedule)
    requires forall u <- us :: u in Run(s, schedule).pc
    requires forall i, j | 0 <= i < j < |us| :: us[i] != us[j]
    ensures Run(s, schedule).head + OutstandingOf(Run(s, schedule), us) <= Run(s, schedule).tail
  {
    RunKeepsInv(s, schedule);
    OutstandingBelowTail(Run(s, schedule), us);
  }

  lemma OutstandingBelowTail(s: State, us: seq<Thread>)
    requires Inv(s)
    requires forall u <- us :: u in s.pc
    requires forall i, j | 0 <= i < j < |us| :: us[i] != us[j]
    ensures s.head + OutstandingOf(s, us) <= s.tail
  {
    var ts := TakeAll(s, us);
    forall y | y in ts ensures y.grant + y.returned <= y.want && y.taken <= y.grant {
      var k :| 0 <= k < |ts| && ts[k] == y;
      assert TicketOk(s, k);
    }
    SumCompare(ts);
    GrantsWithinTail(s, |s.tickets|);
    assert s.tickets[..|s.tickets|] == s.tickets;
  }

  /// In particular a consumer about to add its grant to `head` gets indices below the tail.
  lemma ClaimIsBelowTail(s: State, t: Thread)
    requires Inv(s) && t in s.pc && s.pc[t].Advance?
    ensures s.head + s.pc[t].granted <= s.tail && s.pc[t].granted < HALF
  {
    assert PcOk(s, t) && TicketOk(s, s.pc[t].k);
    OutstandingBelowTail(s, [t]);
    assert OutstandingOf(s, [t]) == OutstandingOf(s, []) + s.pc[t].granted;
  }

  lemma {:induction false} SettledSums(ts: seq<Ticket>)
    requires forall x <- ts :: Finished(x)
    ensures Sum(ts, Want) == Sum(ts, Returned) + Sum(ts, Taken)
  {
    if ts != [] {
      assert Finished(ts[|ts| - 1]);
      SettledSums(ts[..|ts| - 1]);
    }
  }

  /// With no dequeue in progress the optimistic count less the overcommit is the head index.
  lemma SettledCounters(s: State)
    requires Inv(s) && Quiescent(s)
    ensures s.optimistic - s.overcommit == s.head <= s.tail
  {
    forall x | x in s.tickets ensures Finished(x) {
      var k :| 0 <= k < |s.tickets| && s.tickets[k] == x;
      assert HolderOk(s, k);
    }
    SettledSums(s.tickets);
    OutstandingBelowTail(s, []);
    assert OutstandingOf(s, []) == 0;
  }

  /// The number of elements that can be taken.
  function Size(s: State): nat {
    if s.head < s.tail then s.tail - s.head else 0
  }

  /// `n` steps of `t`, with no other thread moving.
  function Alone(s: State, t: Thread, n: nat): State {
    if n == 0 then s else Move(Alone(s, t, n - 1), (t, Go))
  }

  /// A dequeue that runs alone takes the lesser of what it asks for and what there is, so it fails
  /// exactly when the sub-queue is empty.
  lemma LoneDequeue(s: State, t: Thread, max: nat) returns (n: nat)
    requires Inv(s) && Quiescent(s) && t in s.pc && max > 0
    requires Size(s) < HALF
    ensures var e := Alone(Move(s, (t, Dequeue(max))), t, n);
            && t in e.pc && e.pc[t] == Idle && e.tail == s.tail
            && e.head == s.head + Min(max, Size(s))
            && e.optimistic - e.overcommit == e.head
  {
    SettledCounters(s);
    AvailableIsExact(s.tail, s.optimistic, s.overcommit);
    var s1 := Move(s, (t, Dequeue(max)));
    var s2 := Alone(s1, t, 1);
    var s3 := Alone(s1, t, 2);
    assert s2 == Move(Alone(s1, t, 0), (t, Go)) && s2.pc[t] == LoadOvercommit(max, s.tail);
    assert s3 == Move(s2, (t, Go)) && s3.pc[t] == LoadOptimistic(max, s.tail, s.overcommit);
    var s4 := Alone(s1, t, 3);
    assert s4 == Move(s3, (t, Go));
    if s.head == s.tail {
      n := 3;
    } else {
      var want := Min(max, s.tail - s.head);
      assert s4.pc[t] == Reserve(want, s.overcommit);
      var s5 := Alone(s1, t, 4);
      assert s5 == Move(s4, (t, Go)) && s5.pc[t] == LoadTail(s.optimistic, want, s.overcommit, |s.tickets|);
      var s6 := Alone(s1, t, 5);
      assert s6 == Move(s5, (t, Go)) && s6.pc[t] == Advance(want, |s.tickets|);
      n := 6;
      assert Alone(s1, t, 6) == Move(s6, (t, Go));
    }
  }
}
