/// The incremental decoder of the chunked transfer coding (ChunkedEncoding.h; section 7.1 of
/// RFC 9112): methods that advance through a fragment and overwrite a 64-bit state, and the
/// machine that reads one byte at a time, which they are proved to follow.
module ChunkedEncoding {

  import opened Wrappers

  type byte = b: int | 0 <= b < 256

  const CR: byte := 13
  const LF: byte := 10

  // ------------------------------------------------------ the 64-bit state

  const WORD: nat := 0x1_0000_0000_0000_0000
  const STATE_HAS_SIZE: nat := 0x8000_0000_0000_0000
  const STATE_IS_CHUNKED: nat := 0x4000_0000_0000_0000
  const STATE_IS_ERROR: nat := 0xFFFF_FFFF_FFFF_FFFF

  /// state & STATE_SIZE_MASK
  function ChunkSize(state: nat): nat { state % STATE_IS_CHUNKED }

  predicate HasChunkSize(state: nat) { state / STATE_HAS_SIZE % 2 == 1 }

  predicate IsChunked(state: nat) { state / STATE_IS_CHUNKED % 2 == 1 }

  /// state | STATE_IS_CHUNKED
  function WithChunked(state: nat): nat { if IsChunked(state) then state else state + STATE_IS_CHUNKED }

  /// state | STATE_HAS_SIZE
  function WithSize(state: nat): nat { if HasChunkSize(state) then state else state + STATE_HAS_SIZE }

  /// chunkSize(state) & STATE_SIZE_OVERFLOW, the bits 56 to 59
  predicate SizeOverflows(size: nat) { size / 0x100_0000_0000_0000 % 16 != 0 }

  function DecChunkSize(state: nat, amount: nat): nat
    requires amount <= ChunkSize(state)
  {
    (state - ChunkSize(state)) + (ChunkSize(state) - amount)
  }

  /// data[0] > 32, where char is signed.
  predicate Above32(b: byte) { 32 < b < 128 }

  /// The value of a character of the size field as computed in `unsigned int`.
  function NumberOf(b: byte): nat {
    var digit := if b >= 97 then (b - 39) % 256 else if b >= 65 then (b - 7) % 256 else b;
    (digit - 48) % 0x1_0000_0000
  }

  /// One more digit in the size field, in 64 bits.
  function Shifted(size: nat, number: nat): nat {
    (size * 16 + number) % WORD
  }

  // ----------------------------------------------------- the byte machine

  datatype Mode =
    | Line(value: nat)       // in the size field, which has this value so far
    | Skip(value: nat)       // after the size field, before the end of its line
    | Body(left: nat)        // so many bytes of data and its CRLF still to come
    | Tail(left: nat)        // so many bytes after the last chunk still to come
    | Done
    | Error

  datatype Event = Data(b: byte) | EndOfBody

  /// The largest value a size field can reach.
  const MAX_VALUE: nat := 0x1000_0000_0000_0000

  predicate Valid(m: Mode) {
    match m
    case Line(v) => v <= MAX_VALUE
    case Skip(v) => v <= MAX_VALUE
    case Body(left) => 0 < left <= MAX_VALUE + 2
    case Tail(left) => 0 < left <= 4
    case _ => true
  }

  /// How many bytes follow the line of the last chunk.
  function TailSize(trailer: bool): nat { if trailer then 4 else 2 }

  function EndLine(v: nat, trailer: bool): (Mode, seq<Event>) {
    if v == 0 then (Tail(TailSize(trailer)), [EndOfBody]) else (Body(v + 2), [])
  }

  function Step(m: Mode, b: byte, trailer: bool): (Mode, seq<Event>) {
    match m
    case Line(v) =>
      if Above32(b) then
        (if NumberOf(b) > 16 || SizeOverflows(v) then (Error, []) else (Line(Shifted(v, NumberOf(b))), []))
      else if b == LF then EndLine(v, trailer)
      else (Skip(v), [])
    case Skip(v) => if b == LF then EndLine(v, trailer) else (Skip(v), [])
    case Body(left) => (if left <= 1 then Line(0) else Body(left - 1), if left > 2 then [Data(b)] else [])
    case Tail(left) => (if left <= 1 then Done else Tail(left - 1), [])
    case Done => (Done, [])
    case Error => (Error, [])
  }

  predicate Stopped(m: Mode) { m.Done? || m.Error? }

  datatype Fed = Fed(mode: Mode, events: seq<Event>, used: nat)

  /// Feeding bytes until they run out, the body has ended, or there is an error; the byte that
  /// causes the error is not used.
  function Feed(m: Mode, bytes: seq<byte>, trailer: bool): Fed
    decreases |bytes|
  {
    if bytes == [] || Stopped(m) then Fed(m, [], 0)
    else
      var (m1, ev) := Step(m, bytes[0], trailer);
      if m1.Error? then Fed(Error, [], 0)
      else After(ev, 1, Feed(m1, bytes[1..], trailer))
  }

  /// What was fed before, and what then.
  function After(events: seq<Event>, used: nat, f: Fed): Fed {
    Fed(f.mode, events + f.events, used + f.used)
  }

  /// Between two fragments only the 64-bit state is kept, which does not tell Skip from Line.
  function Rest(m: Mode): Mode { if m.Skip? then Line(m.value) else m }

  /// The 64-bit state between two calls.
  function Pack(m: Mode): nat {
    match m
    case Line(v) => STATE_IS_CHUNKED + v
    case Skip(v) => STATE_IS_CHUNKED + v
    case Body(left) => STATE_HAS_SIZE + STATE_IS_CHUNKED + left
    case Tail(left) => STATE_HAS_SIZE + left
    case Done => 0
    case Error => STATE_IS_ERROR
  }

  lemma StepKeepsValid(m: Mode, b: byte, trailer: bool)
    requires Valid(m)
    ensures Valid(Step(m, b, trailer).0)
  {}

  lemma {:induction false} FeedKeepsValid(m: Mode, bytes: seq<byte>, trailer: bool)
    requires Valid(m)
    ensures Valid(Feed(m, bytes, trailer).mode) && Feed(m, bytes, trailer).used <= |bytes|
    ensures Feed(m, bytes, trailer).used == |bytes| || Stopped(Feed(m, bytes, trailer).mode)
    decreases |bytes|
  {
    if bytes != [] && !Stopped(m) {
      StepKeepsValid(m, bytes[0], trailer);
      FeedKeepsValid(Step(m, bytes[0], trailer).0, bytes[1..], trailer);
    }
  }

  /// The 64-bit state says everything there is to say between two calls.
  lemma PackIsExact(m: Mode, m': Mode)
    requires Valid(m) && Valid(m')
    ensures Pack(m) == Pack(m') <==> Rest(m) == Rest(m')
    ensures Pack(m) < WORD && 0 <= Pack(m)
    ensures !m.Error? ==> (HasChunkSize(Pack(m)) <==> m.Body? || m.Tail?)
    ensures !m.Error? ==> (IsChunked(Pack(m)) <==> m.Line? || m.Skip? || m.Body?)
    ensures m.Line? || m.Skip? ==> ChunkSize(Pack(m)) == m.value
    ensures m.Body? || m.Tail? ==> ChunkSize(Pack(m)) == m.left
  {}

  // ------------------------------------------------------------ feeding

  lemma FeedOne(m: Mode, bytes: seq<byte>, trailer: bool)
    requires bytes != [] && !Stopped(m) && !Step(m, bytes[0], trailer).0.Error?
    ensures Feed(m, bytes, trailer) ==
              After(Step(m, bytes[0], trailer).1, 1, Feed(Step(m, bytes[0], trailer).0, bytes[1..], trailer))
  {}

  lemma AfterAfter(ev1: seq<Event>, n1: nat, ev2: seq<Event>, n2: nat, f: Fed)
    ensures After(ev1, n1, After(ev2, n2, f)) == After(ev1 + ev2, n1 + n2, f)
  {
    assert ev1 + (ev2 + f.events) == (ev1 + ev2) + f.events;
  }

  /// Feeding in two parts.
  lemma {:induction false} FeedAppend(m: Mode, a: seq<byte>, b: seq<byte>, trailer: bool)
    requires !Stopped(Feed(m, a, trailer).mode)
    ensures Feed(m, a + b, trailer) ==
              After(Feed(m, a, trailer).events, |a|, Feed(Feed(m, a, trailer).mode, b, trailer))
    ensures Feed(m, a, trailer).used == |a|
    decreases |a|
  {
    if a == [] {
      assert a + b == b;
      assert [] + Feed(m, b, trailer).events == Feed(m, b, trailer).events;
    } else {
      var (m1, ev) := Step(m, a[0], trailer);
      assert (a + b)[1..] == a[1..] + b;
      FeedAppend(m1, a[1..], b, trailer);
      AfterAfter(ev, 1, Feed(m1, a[1..], trailer).events, |a| - 1, Feed(Feed(m1, a[1..], trailer).mode, b, trailer));
    }
  }

  /// What is fed after the machine has stopped is left alone.
  lemma {:induction false} FeedStopped(m: Mode, a: seq<byte>, b: seq<byte>, trailer: bool)
    requires Stopped(Feed(m, a, trailer).mode)
    ensures Feed(m, a + b, trailer) == Feed(m, a, trailer)
    decreases |a|
  {
    if a != [] && !Stopped(m) {
      assert (a + b)[1..] == a[1..] + b;
      if !Step(m, a[0], trailer).0.Error? { FeedStopped(Step(m, a[0], trailer).0, a[1..], b, trailer); }
    }
  }

  function DataEvents(bytes: seq<byte>): seq<Event> {
    seq(|bytes|, i requires 0 <= i < |bytes| => Data(bytes[i]))
  }

  lemma DataEventsAppend(a: seq<byte>, b: seq<byte>)
    ensures DataEvents(a + b) == DataEvents(a) + DataEvents(b)
  {}

  /// How much of `n` bytes of a body with `left` to come is data.
  function DataPart(left: nat, n: nat): nat {
    if left <= 2 then 0 else if n <= left - 2 then n else left - 2
  }

  lemma {:induction false} FeedBody(left: nat, bytes: seq<byte>, trailer: bool)
    requires 0 < left
    ensures |bytes| < left ==>
              Feed(Body(left), bytes, trailer) ==
              Fed(Body(left - |bytes|), DataEvents(bytes[..DataPart(left, |bytes|)]), |bytes|)
    ensures left <= |bytes| ==>
              Feed(Body(left), bytes, trailer) ==
              After(DataEvents(bytes[..DataPart(left, left)]), left, Feed(Line(0), bytes[left..], trailer))
    decreases |bytes|
  {
    hide Feed, DataEvents;
    if bytes == [] {
      FedNothing(Body(left), bytes, trailer);
      NoEvents();
    } else {
      FeedOne(Body(left), bytes, trailer);
      var first := if left > 2 then [bytes[0]] else [];
      var ev := Step(Body(left), bytes[0], trailer).1;
      OneEvent(bytes[0]);
      NoEvents();
      assert ev == DataEvents(first);
      if left > 1 {
        FeedBody(left - 1, bytes[1..], trailer);
        var n := if |bytes| < left then |bytes| else left;
        var rest := bytes[1..][..DataPart(left - 1, n - 1)];
        assert bytes[..DataPart(left, n)] == first + rest;
        DataEventsAppend(first, rest);
        if left <= |bytes| {
          assert bytes[1..][left - 1..] == bytes[left..];
          AfterAfter(ev, 1, DataEvents(rest), left - 1, Feed(Line(0), bytes[left..], trailer));
        }
      }
    }
  }

  lemma NoEvents()
    ensures DataEvents([]) == []
  {}

  lemma OneEvent(b: byte)
    ensures DataEvents([b]) == [Data(b)]
  {}

  lemma FedNothing(m: Mode, bytes: seq<byte>, trailer: bool)
    ensures Feed(m, bytes, trailer) == After([], 0, Feed(m, bytes, trailer))
    ensures Feed(m, [], trailer) == Fed(m, [], 0)
  {
    assert [] + Feed(m, bytes, trailer).events == Feed(m, bytes, trailer).events;
  }

  // ------------------------------------------------------------ methods

  /// What a fragment comes to, as far as the 64-bit state can tell.
  function Read(m: Mode, bytes: seq<byte>, trailer: bool): Fed {
    var f := Feed(m, bytes, trailer);
    f.(mode := Rest(f.mode))
  }

  lemma ReadAfter(m: Mode, bytes: seq<byte>, events: seq<Event>, used: nat, m': Mode, bytes': seq<byte>, trailer: bool)
    requires Feed(m, bytes, trailer) == After(events, used, Feed(m', bytes', trailer))
    ensures Read(m, bytes, trailer) == After(events, used, Read(m', bytes', trailer))
  {}

  lemma StateOfLine(v: nat, number: nat)
    requires v <= MAX_VALUE && number <= 16
    ensures ChunkSize(Pack(Line(v))) == v
    ensures var next := Shifted(v, number);
            !SizeOverflows(v) ==> WithChunked(next) == Pack(Line(next)) && next <= MAX_VALUE
    ensures WithSize(WithChunked((Pack(Line(v)) + 2) % WORD)) == Pack(Body(v + 2))
    ensures !HasChunkSize(Pack(Line(v))) && Pack(Line(v)) != STATE_IS_ERROR
  {}

  lemma FedDigit(v: nat, bytes: seq<byte>, trailer: bool)
    requires bytes != [] && Above32(bytes[0])
    ensures Feed(Line(v), bytes, trailer) ==
              if NumberOf(bytes[0]) > 16 || SizeOverflows(v) then Fed(Error, [], 0)
              else After([], 1, Feed(Line(Shifted(v, NumberOf(bytes[0]))), bytes[1..], trailer))
  {}

  lemma FedSkipped(m: Mode, v: nat, bytes: seq<byte>, trailer: bool)
    requires bytes != [] && bytes[0] != LF && (m == Skip(v) || (m == Line(v) && !Above32(bytes[0])))
    ensures Feed(m, bytes, trailer) == After([], 1, Feed(Skip(v), bytes[1..], trailer))
  {}

  lemma FedLineEnd(m: Mode, v: nat, bytes: seq<byte>, trailer: bool)
    requires bytes != [] && bytes[0] == LF && (m == Skip(v) || m == Line(v))
    ensures Feed(m, bytes, trailer) == After(EndLine(v, trailer).1, 1, Feed(EndLine(v, trailer).0, bytes[1..], trailer))
  {}

  lemma FedThen(m0: Mode, bytes0: seq<byte>, used: nat, m: Mode, bytes: seq<byte>, events: seq<Event>, m': Mode,
                bytes': seq<byte>, trailer: bool)
    requires Feed(m0, bytes0, trailer) == After([], used, Feed(m, bytes, trailer))
    requires Feed(m, bytes, trailer) == After(events, 1, Feed(m', bytes', trailer))
    ensures Feed(m0, bytes0, trailer) == After(events, used + 1, Feed(m', bytes', trailer))
  {
    AfterAfter([], used, events, 1, Feed(m', bytes', trailer));
    assert [] + events == events;
  }

  lemma ReadThen(m0: Mode, bytes0: seq<byte>, used: nat, m: Mode, bytes: seq<byte>, events: seq<Event>, n: nat,
                 m': Mode, bytes': seq<byte>, trailer: bool)
    requires Read(m0, bytes0, trailer) == After([], used, Read(m, bytes, trailer))
    requires Read(m, bytes, trailer) == After(events, n, Read(m', bytes', trailer))
    ensures Read(m0, bytes0, trailer) == After(events, used + n, Read(m', bytes', trailer))
  {
    AfterAfter([], used, events, n, Read(m', bytes', trailer));
    assert [] + events == events;
  }

  lemma ReadNothing(m: Mode, bytes: seq<byte>, trailer: bool)
    ensures Read(m, bytes, trailer) == After([], 0, Read(m, bytes, trailer))
    ensures DataEvents([]) == []
  {
    assert [] + Read(m, bytes, trailer).events == Read(m, bytes, trailer).events;
  }

  lemma ReadFed(m: Mode, bytes: seq<byte>, n: nat, m': Mode, bytes': seq<byte>, trailer: bool)
    requires Feed(m, bytes, trailer) == Fed(m', [], n) && (bytes' == [] || Stopped(m')) && !m'.Skip?
    ensures Read(m, bytes, trailer) == After([], n, Read(m', bytes', trailer))
  {}

  lemma ReadBody(m: Mode, bytes: seq<byte>, emit: seq<byte>, m': Mode, trailer: bool)
    requires Feed(m, bytes, trailer) == Fed(m', DataEvents(emit), |bytes|) && m'.Body?
    ensures Read(m, bytes, trailer) == After(DataEvents(emit), |bytes|, Read(m', [], trailer))
  {
    assert DataEvents(emit) + [] == DataEvents(emit);
  }

  lemma EndLineIs(v: nat, trailer: bool)
    ensures EndLine(v, trailer) == if v == 0 then (Tail(TailSize(trailer)), [EndOfBody]) else (Body(v + 2), [])
  {}

  /// How reading a size line ends: with an error, in the middle of the line, or behind it.
  ghost predicate LineRead(state: nat, data: seq<byte>, m: Mode, events: seq<Event>, trailer: bool) {
    || (state == STATE_IS_ERROR && m == Error && events == [])
    || (state == Pack(m) && !HasChunkSize(state) && state != STATE_IS_ERROR && m.Line? && Valid(m) && data == []
          && events == [])
    || (HasChunkSize(state) && state != STATE_IS_ERROR && 2 <= ChunkSize(state) <= MAX_VALUE + 2
        && state == Pack(Body(ChunkSize(state))) && (m, events) == EndLine(ChunkSize(state) - 2, trailer))
  }

  lemma ReadAfterFed(v0: nat, bytes0: seq<byte>, used: nat, m: Mode, bytes: seq<byte>, trailer: bool)
    requires Feed(Line(v0), bytes0, trailer) == After([], used, Feed(m, bytes, trailer))
    requires Feed(m, bytes, trailer) == Fed(Error, [], 0)
    ensures Read(Line(v0), bytes0, trailer) == After([], used, Read(Error, bytes, trailer))
  {}

  lemma ReadOpen(v0: nat, bytes0: seq<byte>, used: nat, m: Mode, v: nat, trailer: bool)
    requires Feed(Line(v0), bytes0, trailer) == After([], used, Feed(m, [], trailer)) && (m == Line(v) || m == Skip(v))
    ensures Read(Line(v0), bytes0, trailer) == After([], used, Read(Line(v), [], trailer))
  {}

  /// Reads the size field and the rest of its line, as far as the data go.
  method ConsumeHexNumber(data0: seq<byte>, state0: nat, ghost v0: nat, ghost trailer: bool)
      returns (data: seq<byte>, state: nat, ghost m: Mode, ghost events: seq<Event>, ghost used: nat)
    requires v0 <= MAX_VALUE && state0 == Pack(Line(v0))
    ensures used <= |data0| && data == data0[used..] && (data0 != [] && state != STATE_IS_ERROR ==> used > 0)
    ensures Read(Line(v0), data0, trailer) == After(events, used, Read(m, data, trailer))
    ensures LineRead(state, data, m, events, trailer)
  {
    ghost var v: nat;
    hide Pack, WithChunked, WithSize, HasChunkSize, ChunkSize, SizeOverflows, Feed, EndLine, Read, NumberOf, Shifted;
    data, state, v, used, m, events := data0, state0, v0, 0, Line(v0), [];
    FedNothing(Line(v0), data0, trailer);
    while |data| > 0 && Above32(data[0])
      invariant used <= |data0| && data == data0[used..] && v <= MAX_VALUE && state == Pack(Line(v))
      invariant Feed(Line(v0), data0, trailer) == After([], used, Feed(Line(v), data, trailer))
      decreases |data|
    {
      var number := NumberOf(data[0]);
      StateOfLine(v, if number > 16 then 0 else number);
      FedDigit(v, data, trailer);
      if number > 16 || SizeOverflows(ChunkSize(state)) {
        state := STATE_IS_ERROR;
        m := Error;
        ReadAfterFed(v0, data0, used, Line(v), data, trailer);
        PackedConstants(0);
        return;
      }
      FedThen(Line(v0), data0, used, Line(v), data, [], Line(Shifted(v, number)), data[1..], trailer);
      state := Shifted(ChunkSize(state), number);
      state := WithChunked(state);
      data := data[1..];
      v, used := Shifted(v, number), used + 1;
    }
    m := Line(v);
    while |data| > 0 && data[0] != LF
      invariant used <= |data0| && data == data0[used..] && v <= MAX_VALUE && state == Pack(Line(v))
      invariant m == Skip(v) || (m == Line(v) && (data == [] || !Above32(data[0])))
      invariant Feed(Line(v0), data0, trailer) == After([], used, Feed(m, data, trailer))
      decreases |data|
    {
      FedSkipped(m, v, data, trailer);
      FedThen(Line(v0), data0, used, m, data, [], Skip(v), data[1..], trailer);
      data := data[1..];
      m, used := Skip(v), used + 1;
    }
    StateOfLine(v, 0);
    if |data| > 0 {
      FedLineEnd(m, v, data, trailer);
      FedThen(Line(v0), data0, used, m, data, EndLine(v, trailer).1, EndLine(v, trailer).0, data[1..], trailer);
      state := (state + 2) % WORD;
      state := WithSize(WithChunked(state));
      data := data[1..];
      m, events, used := EndLine(v, trailer).0, EndLine(v, trailer).1, used + 1;
      ReadAfter(Line(v0), data0, events, used, m, data, trailer);
      PackedConstants(v);
      EndLineIs(v, trailer);
    } else {
      ReadOpen(v0, data0, used, m, v, trailer);
      m := Line(v);
    }
  }

  lemma PackedConstants(v: nat)
    requires v <= MAX_VALUE
    ensures Pack(Body(v + 2)) != STATE_IS_ERROR
    ensures ChunkSize(Pack(Body(v + 2))) == v + 2 && HasChunkSize(Pack(Body(v + 2)))
    ensures Pack(Error) == STATE_IS_ERROR && Pack(Done) == 0 && Pack(Line(0)) == STATE_IS_CHUNKED
    ensures Pack(Tail(2)) == 2 + STATE_HAS_SIZE && Pack(Tail(4)) == 4 + STATE_HAS_SIZE
  {}

  function EventsOf(chunk: Option<seq<byte>>): seq<Event> {
    match chunk
    case None => []
    case Some(bytes) => if bytes == [] then [EndOfBody] else DataEvents(bytes)
  }

  lemma StateOfBody(left: nat, amount: nat)
    requires 0 < left <= MAX_VALUE + 2 && amount < left
    ensures ChunkSize(Pack(Body(left))) == left && HasChunkSize(Pack(Body(left))) && IsChunked(Pack(Body(left)))
    ensures WithChunked(DecChunkSize(Pack(Body(left)), amount)) == Pack(Body(left - amount))
  {}

  lemma StateOfTail(left: nat)
    requires 0 < left <= 4
    ensures ChunkSize(Pack(Tail(left))) == left && HasChunkSize(Pack(Tail(left))) && !IsChunked(Pack(Tail(left)))
    ensures DecChunkSize(Pack(Tail(left)), 1) == if left > 1 then Pack(Tail(left - 1)) else STATE_HAS_SIZE
    ensures ChunkSize(DecChunkSize(Pack(Tail(left)), 1)) == left - 1
  {}

  /// Drops what follows the last chunk.
  method DropTail(data0: seq<byte>, state0: nat, ghost left0: nat, ghost trailer: bool)
      returns (data: seq<byte>, state: nat, done: bool, ghost m: Mode, ghost used: nat)
    requires 0 < left0 <= 4 && state0 == Pack(Tail(left0)) && data0 != []
    ensures used <= |data0| && data == data0[used..] && state == Pack(m)
    ensures Feed(Tail(left0), data0, trailer) == Fed(m, [], used)
    ensures if done then m == Done else data == [] && m.Tail? && 0 < m.left <= 4
  {
    data, state, done, m, used := data0, state0, false, Tail(left0), 0;
    StateOfTail(left0);
    while |data| > 0 && ChunkSize(state) > 0
      invariant used <= |data0| && data == data0[used..]
      invariant m.Tail? && 0 < m.left <= 4 && state == Pack(m) && ChunkSize(state) == m.left
      invariant Feed(Tail(left0), data0, trailer) == After([], used, Feed(m, data, trailer))
      decreases |data|
    {
      StateOfTail(m.left);
      FeedOne(m, data, trailer);
      AfterAfter([], used, [], 1, Feed(Step(m, data[0], trailer).0, data[1..], trailer));
      data := data[1..];
      state := DecChunkSize(state, 1);
      m, used := Step(m, data0[used], trailer).0, used + 1;
      if ChunkSize(state) == 0 {
        state := 0;
        done := true;
        return;
      }
      StateOfTail(m.left);
    }
  }

  /// The data of the chunk that has been read about, as far as they are there; `whole` if the
  /// chunk and its CRLF are.
  method TakeBody(data0: seq<byte>, state0: nat, ghost left: nat, ghost trailer: bool)
      returns (emit: seq<byte>, data: seq<byte>, state: nat, whole: bool, ghost m: Mode, ghost used: nat)
    requires 0 < |data0| < 0x1_0000_0000 && 0 < left <= MAX_VALUE + 2 && state0 == Pack(Body(left))
    ensures 0 < used <= |data0| && data == data0[used..] && Valid(m) && state == Pack(m)
    ensures Read(Body(left), data0, trailer) == After(DataEvents(emit), used, Read(m, data, trailer))
    ensures if whole then m == Line(0) else data == [] && m.Body?
  {
    hide Pack, WithChunked, ChunkSize, DecChunkSize, Feed, Read, DataEvents;
    StateOfBody(left, 0);
    PackedConstants(0);
    FeedBody(left, data0, trailer);
    if |data0| >= ChunkSize(state0) {
      var size := ChunkSize(state0);
      emit := if size > 2 then data0[..size - 2] else [];
      data := data0[size..];
      state := STATE_IS_CHUNKED;
      whole, m, used := true, Line(0), left;
      ReadAfter(Body(left), data0, DataEvents(emit), left, m, data, trailer);
    } else {
      emit := [];
      if ChunkSize(state0) > 2 {
        var maximalAppEmit := ChunkSize(state0) - 2;
        if |data0| > maximalAppEmit { emit := data0[..maximalAppEmit]; } else { emit := data0; }
      }
      assert emit == data0[..DataPart(left, |data0|)];
      StateOfBody(left, |data0|);
      state := DecChunkSize(state0, |data0| % 0x1_0000_0000);
      state := WithChunked(state);
      data := [];
      whole, m, used := false, Body(left - |data0|), |data0|;
      ReadBody(Body(left), data0, emit, m, trailer);
    }
  }

  /// The next chunk, or nothing if all data have been consumed, the body has ended, or there is
  /// an error.  The chunk is exactly what the machine emits for the bytes consumed.
  method GetNextChunk(data0: seq<byte>, state0: nat, trailer: bool, ghost m0: Mode)
      returns (chunk: Option<seq<byte>>, data: seq<byte>, state: nat, ghost m: Mode, ghost used: nat)
    requires |data0| < 0x1_0000_0000
    requires Valid(m0) && !m0.Skip? && !Stopped(m0) && state0 == Pack(m0)
    ensures Valid(m) && !m.Skip? && state == Pack(m)
    ensures used <= |data0| && data == data0[used..]
    ensures Read(m0, data0, trailer) == After(EventsOf(chunk), used, Read(m, data, trailer))
    ensures chunk.None? ==> data == [] || Stopped(m)
    ensures chunk.Some? ==> used > 0 && !Stopped(m)
  {
    hide Pack, WithChunked, WithSize, HasChunkSize, IsChunked, ChunkSize, DecChunkSize, Feed, Read, DataEvents, After,
        EndLine;
    ReadNothing(m0, data0, trailer);
    chunk, data, state, m, used := None, data0, state0, m0, 0;
    while |data| > 0
      invariant chunk == None && Valid(m) && !m.Skip? && !Stopped(m) && state == Pack(m)
      invariant used <= |data0| && data == data0[used..]
      invariant Read(m0, data0, trailer) == After([], used, Read(m, data, trailer))
      decreases |data|
    {
      var data1 := data;
      ghost var m1, used1, n := m, used, 0;
      PackIsExact(m, Done);
      PackedConstants(0);
      if !IsChunked(state) && HasChunkSize(state) && ChunkSize(state) > 0 {
        var done;
        data, state, done, m, n := DropTail(data1, state, m.left, trailer);
        used := used1 + n;
        ReadFed(m1, data1, n, m, data, trailer);
        ReadThen(m0, data0, used1, m1, data1, [], n, m, data, trailer);
        if done { return; }
        continue;
      }
      if !HasChunkSize(state) {
        ghost var events;
        data, state, m, events, n := ConsumeHexNumber(data1, state, m.value, trailer);
        used := used1 + n;
        ReadThen(m0, data0, used1, m1, data1, events, n, m, data, trailer);
        if state == STATE_IS_ERROR { return; }
        if HasChunkSize(state) {
          EndLineIs(ChunkSize(state) - 2, trailer);
          if ChunkSize(state) == 2 {
            state := (if trailer then 4 else 2) + STATE_HAS_SIZE;
            chunk := Some([]);
            return;
          }
        }
        continue;
      }
      var emit, whole;
      emit, data, state, whole, m, n := TakeBody(data1, state, m.left, trailer);
      used := used1 + n;
      ReadThen(m0, data0, used1, m1, data1, DataEvents(emit), n, m, data, trailer);
      if |emit| > 0 {
        chunk := Some(emit);
        return;
      }
      assert emit == [];
      if !whole { return; }
    }
  }

  function AllEvents(chunks: seq<seq<byte>>): seq<Event> {
    if chunks == [] then [] else AllEvents(chunks[..|chunks| - 1]) + EventsOf(Some(chunks[|chunks| - 1]))
  }

  /// Iterating over the chunks of a fragment, as `ChunkIterator` does.
  method DecodeFragment(data0: seq<byte>, state0: nat, trailer: bool, ghost m0: Mode)
      returns (chunks: seq<seq<byte>>, data: seq<byte>, state: nat, ghost m: Mode, ghost used: nat)
    requires |data0| < 0x1_0000_0000
    requires Valid(m0) && !m0.Skip? && !Stopped(m0) && state0 == Pack(m0)
    ensures Valid(m) && !m.Skip? && state == Pack(m)
    ensures used <= |data0| && data == data0[used..]
    ensures Read(m0, data0, trailer) == Fed(m, AllEvents(chunks), used)
  {
    hide Read, Pack, DataEvents;
    chunks, data, state, m, used := [], data0, state0, m0, 0;
    var chunk;
    ghost var n;
    chunk, data, state, m, n := GetNextChunk(data, state, trailer, m);
    used := n;
    while chunk != None
      invariant Valid(m) && !m.Skip? && state == Pack(m) && (chunk.Some? ==> !Stopped(m))
      invariant used <= |data0| && data == data0[used..]
      invariant Read(m0, data0, trailer) == After(AllEvents(chunks) + EventsOf(chunk), used, Read(m, data, trailer))
      invariant chunk.None? ==> data == [] || Stopped(m)
      decreases |data|, if chunk == None then 0 else 1
    {
      assert (chunks + [chunk.value])[..|chunks|] == chunks;
      ghost var before := AllEvents(chunks + [chunk.value]);
      chunks := chunks + [chunk.value];
      ghost var data1 := data;
      chunk, data, state, m, n := GetNextChunk(data, state, trailer, m);
      AfterAfter(before, used, EventsOf(chunk), n, Read(m, data, trailer));
      used := used + n;
    }
    AtEnd(m, data, trailer);
  }

  lemma AtEnd(m: Mode, bytes: seq<byte>, trailer: bool)
    requires (bytes == [] || Stopped(m)) && !m.Skip?
    ensures Read(m, bytes, trailer) == Fed(m, [], 0)
  {}

  // ------------------------------------------------------ the size field

  predicate HexDigit(b: byte) { 48 <= b <= 57 || 65 <= b <= 70 || 97 <= b <= 102 }

  function HexValue(b: byte): nat
    requires HexDigit(b)
  {
    if b <= 57 then b - 48 else if b <= 70 then b - 55 else b - 87
  }

  predicate HexDigits(digits: seq<byte>) { forall b <- digits :: HexDigit(b) }

  /// The number written in base 16.
  function Value(digits: seq<byte>): nat
    requires HexDigits(digits)
  {
    if digits == [] then 0 else Value(digits[..|digits| - 1]) * 16 + HexValue(digits[|digits| - 1])
  }

  /// Which characters the program takes for digits: besides the hexadecimal ones also those
  /// between '9' and 'A', 'G' and 'g'.
  lemma DigitsAccepted(b: byte)
    requires Above32(b)
    ensures NumberOf(b) <= 16 <==> HexDigit(b) || 58 <= b <= 64 || b == 71 || b == 103
    ensures HexDigit(b) ==> NumberOf(b) == HexValue(b)
  {}

  lemma Overflow(v: nat, digit: nat)
    requires v < MAX_VALUE && digit < 16
    ensures SizeOverflows(v) <==> v * 16 + digit >= MAX_VALUE
    ensures !SizeOverflows(v) ==> Shifted(v, digit) == v * 16 + digit
  {}

  /// Reading hexadecimal digits keeps the exact value as long as it is below 2^60; a value of
  /// 2^60 or more is an error, and nothing else is.
  lemma {:induction false} FieldIsRead(digits: seq<byte>, rest: seq<byte>, trailer: bool)
    requires HexDigits(digits)
    ensures Value(digits) < MAX_VALUE ==>
              Feed(Line(0), digits + rest, trailer) == After([], |digits|, Feed(Line(Value(digits)), rest, trailer))
    ensures Value(digits) >= MAX_VALUE ==>
              Feed(Line(0), digits + rest, trailer).mode == Error && Feed(Line(0), digits + rest, trailer).events == []
    decreases |digits|
  {
    hide Feed, NumberOf, SizeOverflows;
    if digits == [] {
      FedNothing(Line(0), rest, trailer);
      assert digits + rest == rest;
    } else {
      var n := |digits| - 1;
      var b, v := digits[n], Value(digits[..n]);
      assert b in digits && digits == digits[..n] + [b];
      assert digits + rest == digits[..n] + ([b] + rest);
      FieldIsRead(digits[..n], [b] + rest, trailer);
      DigitsAccepted(b);
      if v < MAX_VALUE {
        FedDigit(v, [b] + rest, trailer);
        assert ([b] + rest)[1..] == rest;
        Overflow(v, HexValue(b));
        if !SizeOverflows(v) { AfterAfter([], n, [], 1, Feed(Line(v * 16 + HexValue(b)), rest, trailer)); }
      }
    }
  }

  /// A size line is accepted exactly if its value is below 2^60, and then asks for that many bytes
  /// and a CRLF, or, if it is zero, for the end of the body.
  lemma SizeLine(digits: seq<byte>, rest: seq<byte>, trailer: bool)
    requires HexDigits(digits)
    ensures Value(digits) < MAX_VALUE <==> !Feed(Line(0), digits + [CR, LF], trailer).mode.Error?
    ensures 0 < Value(digits) < MAX_VALUE ==>
              Feed(Line(0), digits + [CR, LF] + rest, trailer) ==
                  After([], |digits| + 2, Feed(Body(Value(digits) + 2), rest, trailer))
    ensures Value(digits) == 0 ==>
              Feed(Line(0), digits + [CR, LF] + rest, trailer) ==
                  After([EndOfBody], |digits| + 2, Feed(Tail(TailSize(trailer)), rest, trailer))
  {
    hide Feed;
    var v := Value(digits);
    FieldIsRead(digits, [CR, LF], trailer);
    FedNothing(EndLine(v, trailer).0, [], trailer);
    FieldIsRead(digits, [CR, LF] + rest, trailer);
    assert digits + [CR, LF] + rest == digits + ([CR, LF] + rest);
    CrLf(v, rest, trailer);
    CrLf(v, [], trailer);
    assert [CR, LF] + [] == [CR, LF];
    AfterAfter([], |digits|, EndLine(v, trailer).1, 2, Feed(EndLine(v, trailer).0, rest, trailer));
  }

  lemma CrLf(v: nat, rest: seq<byte>, trailer: bool)
    ensures Feed(Line(v), [CR, LF] + rest, trailer) ==
              After(EndLine(v, trailer).1, 2, Feed(EndLine(v, trailer).0, rest, trailer))
  {
    var bytes := [CR, LF] + rest;
    FedSkipped(Line(v), v, bytes, trailer);
    assert bytes[1..] == [LF] + rest;
    FedLineEnd(Skip(v), v, bytes[1..], trailer);
    assert bytes[1..][1..] == rest;
    AfterAfter([], 1, EndLine(v, trailer).1, 1, Feed(EndLine(v, trailer).0, rest, trailer));
  }

  // -------------------------------------------------------- round trip

  /// A chunk of section 7.1 of RFC 9112, without extensions: the size may have leading zeros and
  /// digits of either case.
  datatype Chunk = Chunk(size: seq<byte>, data: seq<byte>)

  predicate ChunkOk(c: Chunk) {
    c.size != [] && HexDigits(c.size) && Value(c.size) == |c.data| && 0 < |c.data| < MAX_VALUE
  }

  predicate LastOk(last: seq<byte>) {
    last != [] && HexDigits(last) && Value(last) == 0
  }

  function EncodeChunk(c: Chunk): seq<byte> {
    c.size + [CR, LF] + c.data + [CR, LF]
  }

  function EncodeChunks(chunks: seq<Chunk>): seq<byte> {
    if chunks == [] then [] else EncodeChunk(chunks[0]) + EncodeChunks(chunks[1..])
  }

  /// chunked-body = *chunk last-chunk CRLF
  function ChunkedBody(chunks: seq<Chunk>, last: seq<byte>): seq<byte> {
    EncodeChunks(chunks) + (last + [CR, LF] + [CR, LF])
  }

  function Content(chunks: seq<Chunk>): seq<byte> {
    if chunks == [] then [] else chunks[0].data + Content(chunks[1..])
  }

  lemma ChunkIsRead(c: Chunk, rest: seq<byte>)
    requires ChunkOk(c)
    ensures Feed(Line(0), EncodeChunk(c) + rest, false) ==
              After(DataEvents(c.data), |EncodeChunk(c)|, Feed(Line(0), rest, false))
  {
    hide Feed;
    var tail := c.data + [CR, LF] + rest;
    assert EncodeChunk(c) + rest == c.size + [CR, LF] + tail;
    SizeLine(c.size, tail, false);
    var left := |c.data| + 2;
    FeedBody(left, tail, false);
    assert tail[..DataPart(left, left)] == c.data && tail[left..] == rest;
    AfterAfter([], |c.size| + 2, DataEvents(c.data), left, Feed(Line(0), rest, false));
  }

  lemma FedAtEnd(bytes: seq<byte>)
    ensures Feed(Done, bytes, false) == Fed(Done, [], 0)
  {}

  lemma EndIsRead(last: seq<byte>, rest: seq<byte>)
    requires LastOk(last)
    ensures Feed(Line(0), last + [CR, LF] + [CR, LF] + rest, false) == Fed(Done, [EndOfBody], |last| + 4)
  {
    var tail := [CR, LF] + rest;
    assert last + [CR, LF] + [CR, LF] + rest == last + [CR, LF] + tail;
    SizeLine(last, tail, false);
    hide Feed;
    FeedOne(Tail(2), tail, false);
    FeedOne(Tail(1), tail[1..], false);
    FedAtEnd(tail[1..][1..]);
  }

  lemma FirstChunk(chunks: seq<Chunk>, last: seq<byte>, rest: seq<byte>)
    requires chunks != []
    ensures ChunkedBody(chunks, last) == EncodeChunk(chunks[0]) + ChunkedBody(chunks[1..], last)
    ensures ChunkedBody(chunks, last) + rest == EncodeChunk(chunks[0]) + (ChunkedBody(chunks[1..], last) + rest)
  {
    var a, b, c := EncodeChunk(chunks[0]), EncodeChunks(chunks[1..]), last + [CR, LF] + [CR, LF];
    assert (a + b) + c == a + (b + c);
    assert (a + (b + c)) + rest == a + ((b + c) + rest);
  }

  /// Decoding an encoded body followed by anything yields the content and one end marker, ends
  /// with state 0, and leaves exactly what follows.
  lemma {:induction false} RoundTrip(chunks: seq<Chunk>, last: seq<byte>, rest: seq<byte>)
    requires (forall c <- chunks :: ChunkOk(c)) && LastOk(last)
    ensures Feed(Line(0), ChunkedBody(chunks, last) + rest, false)
            == Fed(Done, DataEvents(Content(chunks)) + [EndOfBody], |ChunkedBody(chunks, last)|)
    ensures Pack(Done) == 0
    decreases |chunks|
  {
    hide Feed;
    if chunks == [] {
      EndIsRead(last, rest);
      assert ChunkedBody(chunks, last) + rest == last + [CR, LF] + [CR, LF] + rest;
      NoEvents();
    } else {
      var following := ChunkedBody(chunks[1..], last) + rest;
      FirstChunk(chunks, last, rest);
      ChunkIsRead(chunks[0], following);
      RoundTrip(chunks[1..], last, rest);
      DataEventsAppend(chunks[0].data, Content(chunks[1..]));
      AfterAfter(DataEvents(chunks[0].data), |EncodeChunk(chunks[0])|, DataEvents(Content(chunks[1..])) + [EndOfBody],
          |ChunkedBody(chunks[1..], last)|, Fed(Done, [], 0));
      assert DataEvents(chunks[0].data) + (DataEvents(Content(chunks[1..])) + [EndOfBody]) ==
          DataEvents(Content(chunks)) + [EndOfBody];
    }
  }

  /// Every list of non-empty chunks has such an encoding: sizes in lower case, without zeros in front.
  function Hex(n: nat): seq<byte> {
    (if n < 16 then [] else Hex(n / 16)) + [HexDigitOf(n % 16)]
  }

  function HexDigitOf(r: nat): (b: byte)
    requires r < 16
    ensures HexDigit(b) && HexValue(b) == r
  {
    if r < 10 then 48 + r else 87 + r
  }

  lemma {:induction false} HexIsExact(n: nat)
    ensures Hex(n) != [] && HexDigits(Hex(n)) && Value(Hex(n)) == n
  {
    hide HexDigitOf, HexDigit, HexValue;
    var high: seq<byte> := if n < 16 then [] else Hex(n / 16);
    var low := HexDigitOf(n % 16);
    if n >= 16 { HexIsExact(n / 16); }
    assert Hex(n) == high + [low];
    ValueAppend(high, low);
  }

  lemma ValueAppend(high: seq<byte>, low: byte)
    requires HexDigits(high) && HexDigit(low)
    ensures HexDigits(high + [low]) && Value(high + [low]) == Value(high) * 16 + HexValue(low)
  {
    var digits := high + [low];
    assert digits[..|digits| - 1] == high && digits[|digits| - 1] == low;
  }

  function ChunksOf(bodies: seq<seq<byte>>): seq<Chunk> {
    if bodies == [] then [] else [Chunk(Hex(|bodies[0]|), bodies[0])] + ChunksOf(bodies[1..])
  }

  function Joined(parts: seq<seq<byte>>): seq<byte> {
    if parts == [] then [] else parts[0] + Joined(parts[1..])
  }

  lemma {:induction false} ChunksOfBodies(bodies: seq<seq<byte>>)
    requires forall b <- bodies :: 0 < |b| < MAX_VALUE
    ensures (forall c <- ChunksOf(bodies) :: ChunkOk(c)) && Content(ChunksOf(bodies)) == Joined(bodies)
  {
    if bodies != [] {
      ChunksOfBodies(bodies[1..]);
      HexIsExact(|bodies[0]|);
      assert ChunksOf(bodies)[1..] == ChunksOf(bodies[1..]);
    }
  }

  // -------------------------------------------------- fragments

  /// Decoding fragment by fragment, until the body has ended or there is an error.
  function ReadAll(m: Mode, fragments: seq<seq<byte>>, trailer: bool): Fed
    decreases |fragments|
  {
    if fragments == [] || Stopped(m) then Fed(m, [], 0)
    else
      var f := Read(m, fragments[0], trailer);
      After(f.events, f.used, ReadAll(f.mode, fragments[1..], trailer))
  }

  /// No character above 32 comes late, after the size field in its line - other than a zero
  /// behind the value zero.
  predicate NoLateSize(m: Mode, bytes: seq<byte>, trailer: bool)
    decreases |bytes|
  {
    bytes == [] || Stopped(m) ||
    ((m.Skip? && Above32(bytes[0]) ==> m.value == 0 && NumberOf(bytes[0]) == 0)
     && (Step(m, bytes[0], trailer).0.Error? || NoLateSize(Step(m, bytes[0], trailer).0, bytes[1..], trailer)))
  }

  /// Forgetting that the size field is over makes no difference then.
  lemma {:induction false} ForgettingIsHarmless(m: Mode, bytes: seq<byte>, trailer: bool)
    requires NoLateSize(m, bytes, trailer)
    ensures NoLateSize(Rest(m), bytes, trailer) && Read(Rest(m), bytes, trailer) == Read(m, bytes, trailer)
    decreases |bytes|
  {
    if m.Skip? && bytes != [] {
      var m1, m1' := Step(m, bytes[0], trailer).0, Step(Rest(m), bytes[0], trailer).0;
      assert m1 == m1' || (m1 == Skip(0) && m1' == Line(0));
      ForgettingIsHarmless(m1, bytes[1..], trailer);
    }
  }

  lemma {:induction false} NoLateSizeAppend(m: Mode, a: seq<byte>, b: seq<byte>, trailer: bool)
    ensures NoLateSize(m, a + b, trailer) <==>
              NoLateSize(m, a, trailer)
                  && (Stopped(Feed(m, a, trailer).mode) || NoLateSize(Feed(m, a, trailer).mode, b, trailer))
    decreases |a|
  {
    if a == [] {
      assert a + b == b;
    } else if !Stopped(m) {
      assert (a + b)[1..] == a[1..] + b;
      NoLateSizeAppend(Step(m, a[0], trailer).0, a[1..], b, trailer);
    }
  }

  lemma {:induction false} FragmentsAgree(m: Mode, fragments: seq<seq<byte>>, trailer: bool)
    requires !m.Skip? && NoLateSize(m, Joined(fragments), trailer)
    ensures ReadAll(m, fragments, trailer) == Read(m, Joined(fragments), trailer)
    decreases |fragments|
  {
    if fragments != [] && !Stopped(m) {
      var a, b := fragments[0], Joined(fragments[1..]);
      var f := Feed(m, a, trailer);
      NoLateSizeAppend(m, a, b, trailer);
      if Stopped(f.mode) {
        FeedStopped(m, a, b, trailer);
        assert f.events + [] == f.events;
      } else {
        FeedAppend(m, a, b, trailer);
        ForgettingIsHarmless(f.mode, b, trailer);
        FragmentsAgree(Rest(f.mode), fragments[1..], trailer);
      }
    }
  }

  /// Where a character comes late, splitting before it makes it count.
  lemma {:induction false} LateSizeMatters(m: Mode, bytes: seq<byte>, trailer: bool) returns (k: nat)
    requires Valid(m) && !NoLateSize(m, bytes, trailer)
    ensures k < |bytes| && !Stopped(Feed(m, bytes[..k], trailer).mode)
    ensures var m1 := Feed(m, bytes[..k], trailer).mode;
            m1.Skip? && Valid(m1) && Above32(bytes[k]) && !(m1.value == 0 && NumberOf(bytes[k]) == 0)
    decreases |bytes|
  {
    var b := bytes[0];
    if m.Skip? && Above32(b) && !(m.value == 0 && NumberOf(b) == 0) {
      k := 0;
      assert bytes[..0] == [];
    } else {
      StepKeepsValid(m, b, trailer);
      var n := LateSizeMatters(Step(m, b, trailer).0, bytes[1..], trailer);
      k := n + 1;
      assert bytes[..k][1..] == bytes[1..][..n];
    }
  }

  /// Decoding is independent of fragmentation exactly for streams in which no character comes
  /// late: for those every way of splitting any beginning of the stream gives what one piece gives.
  lemma IndependentOfFragmentation(m: Mode, bytes: seq<byte>, trailer: bool)
    requires Valid(m) && !m.Skip? && !Stopped(m)
    ensures NoLateSize(m, bytes, trailer) <==>
              forall fragments: seq<seq<byte>> | Joined(fragments) <= bytes ::
                ReadAll(m, fragments, trailer) == Read(m, Joined(fragments), trailer)
  {
    hide Feed, Read, ReadAll, NoLateSize, Joined;
    if NoLateSize(m, bytes, trailer) {
      forall fragments: seq<seq<byte>> | Joined(fragments) <= bytes
        ensures ReadAll(m, fragments, trailer) == Read(m, Joined(fragments), trailer)
      {
        BeginningAgrees(m, bytes, fragments, trailer);
      }
    } else {
      var fragments := LateSizeSplit(m, bytes, trailer);
      assert Joined(fragments) <= bytes;
    }
  }

  /// One byte that emits nothing.
  lemma FeedNext(m: Mode, bytes: seq<byte>, rest: seq<byte>, m': Mode, f: Fed)
    requires bytes != [] && bytes[1..] == rest
    requires !Stopped(m) && Step(m, bytes[0], false) == (m', []) && !m'.Error? && Feed(m', rest, false) == f
              && f.events == []
    ensures Feed(m, bytes, false) == f.(used := f.used + 1)
  {}

  lemma SplitLineFed()
    ensures Feed(Line(0), [53, 32, 53, CR, LF], false) == Fed(Body(7), [], 5)
    ensures Feed(Line(0), [53, 32], false) == Fed(Skip(5), [], 2)
    ensures Feed(Line(5), [53, CR, LF], false) == Fed(Body(87), [], 3)
  {
    hide Feed;
    FedNothing(Body(7), [], false);
    FedNothing(Body(87), [], false);
    FedNothing(Skip(5), [], false);
    FeedNext(Skip(5), [LF], [], Body(7), Fed(Body(7), [], 0));
    FeedNext(Skip(5), [CR, LF], [LF], Skip(5), Fed(Body(7), [], 1));
    FeedNext(Skip(5), [53, CR, LF], [CR, LF], Skip(5), Fed(Body(7), [], 2));
    FeedNext(Line(5), [32, 53, CR, LF], [53, CR, LF], Skip(5), Fed(Body(7), [], 3));
    FeedNext(Line(0), [53, 32, 53, CR, LF], [32, 53, CR, LF], Line(5), Fed(Body(7), [], 4));
    FeedNext(Line(5), [32], [], Skip(5), Fed(Skip(5), [], 0));
    FeedNext(Line(0), [53, 32], [32], Line(5), Fed(Skip(5), [], 1));
    FeedNext(Skip(85), [LF], [], Body(87), Fed(Body(87), [], 0));
    FeedNext(Line(85), [CR, LF], [LF], Skip(85), Fed(Body(87), [], 1));
    FeedNext(Line(5), [53, CR, LF], [CR, LF], Line(85), Fed(Body(87), [], 2));
  }

  /// The size line "5 5": read at once it announces five bytes; split behind the blank, eighty-five.
  lemma SplitLineExample()
    ensures Read(Line(0), [53, 32, 53, CR, LF], false) == Fed(Body(7), [], 5)
    ensures ReadAll(Line(0), [[53, 32], [53, CR, LF]], false) == Fed(Body(87), [], 5)
    ensures !NoLateSize(Line(0), [53, 32, 53, CR, LF], false)
  {
    hide Feed, NoLateSize, ReadAll;
    SplitLineFed();
    var fragments: seq<seq<byte>> := [[53, 32], [53, CR, LF]];
    ReadAllOne(Line(0), fragments, false);
    assert fragments[1..] == [[53, CR, LF]];
    ReadAllOne(Line(5), fragments[1..], false);
    assert |fragments[1..][1..]| == 0;
    ReadAllOne(Body(87), fragments[1..][1..], false);
    assert Joined(fragments[1..]) == [53, CR, LF];
    assert Joined(fragments) == [53, 32, 53, CR, LF];
    if NoLateSize(Line(0), [53, 32, 53, CR, LF], false) {
      FragmentsAgree(Line(0), fragments, false);
    }
  }

  lemma BeginningAgrees(m: Mode, bytes: seq<byte>, fragments: seq<seq<byte>>, trailer: bool)
    requires !m.Skip? && NoLateSize(m, bytes, trailer) && Joined(fragments) <= bytes
    ensures ReadAll(m, fragments, trailer) == Read(m, Joined(fragments), trailer)
  {
    hide Feed, Read, ReadAll, NoLateSize;
    var n := |Joined(fragments)|;
    assert bytes == bytes[..n] + bytes[n..] && bytes[..n] == Joined(fragments);
    NoLateSizeAppend(m, bytes[..n], bytes[n..], trailer);
    FragmentsAgree(m, fragments, trailer);
  }

  lemma LateSizeSplit(m: Mode, bytes: seq<byte>, trailer: bool) returns (fragments: seq<seq<byte>>)
    requires Valid(m) && !m.Skip? && !Stopped(m) && !NoLateSize(m, bytes, trailer)
    ensures Joined(fragments) <= bytes && ReadAll(m, fragments, trailer) != Read(m, Joined(fragments), trailer)
  {
    hide Feed, Read, ReadAll, NoLateSize;
    var k := LateSizeMatters(m, bytes, trailer);
    SplitDiffers(m, bytes[..k], bytes[k], trailer);
    fragments := [bytes[..k], [bytes[k]]];
    var one: seq<seq<byte>> := [[bytes[k]]];
    assert fragments[1..] == one && one[1..] == [] && Joined(one) == [bytes[k]];
    assert Joined(fragments) == bytes[..k] + [bytes[k]] == bytes[..k + 1];
  }

  lemma SplitDiffers(m: Mode, a: seq<byte>, b: byte, trailer: bool)
    requires !m.Skip? && !Stopped(m) && !Stopped(Feed(m, a, trailer).mode)
    requires
      var m1 := Feed(m, a, trailer).mode; m1.Skip? && Valid(m1) && Above32(b) && !(m1.value == 0 && NumberOf(b) == 0)
    ensures ReadAll(m, [a, [b]], trailer) != Read(m, Joined([a, [b]]), trailer)
  {
    var v := Feed(m, a, trailer).mode.value;
    var one: seq<seq<byte>> := [[b]];
    var two: seq<seq<byte>> := [a, [b]];
    assert two[1..] == one && one[1..] == [] && Joined(one) == [b] && Joined(two) == a + [b];
    FeedAppend(m, a, [b], trailer);
    FedInSkip(v, b, trailer);
    assert Read(m, a + [b], trailer).mode == Line(v);
    assert ReadAll(m, two, trailer).mode == ReadAll(Line(v), one, trailer).mode == Read(Line(v), [b], trailer).mode;
  }

  lemma FedInSkip(v: nat, b: byte, trailer: bool)
    requires v <= MAX_VALUE && Above32(b) && !(v == 0 && NumberOf(b) == 0)
    ensures Feed(Skip(v), [b], trailer).mode == Skip(v)
    ensures Read(Line(v), [b], trailer).mode != Line(v)
  {
    var m := Step(Line(v), b, trailer).0;
    assert m != Line(v);
    if !m.Error? { assert Feed(m, [b][1..], trailer).mode == m; }
  }

  lemma {:induction false} NeverLate(m: Mode, bytes: seq<byte>, trailer: bool)
    requires (m.Body? && |bytes| <= m.left) || (m.Line? && HexDigits(bytes))
    ensures NoLateSize(m, bytes, trailer)
    decreases |bytes|
  {
    if bytes != [] {
      if m.Line? { assert bytes[0] in bytes; DigitsAccepted(bytes[0]); }
      if !Step(m, bytes[0], trailer).0.Error? && (m.Line? || m.left > 1) {
        NeverLate(Step(m, bytes[0], trailer).0, bytes[1..], trailer);
      }
    }
  }

  lemma LineNotLate(size: seq<byte>, rest: seq<byte>)
    requires HexDigits(size) && Value(size) < MAX_VALUE && NoLateSize(EndLine(Value(size), false).0, rest, false)
    ensures NoLateSize(Line(0), size + [CR, LF] + rest, false)
  {
    NeverLate(Line(0), size, false);
    FieldIsRead(size, [], false);
    assert size + [] == size;
    var v := Value(size);
    NoLateSizeAppend(Line(0), size, [CR, LF] + rest, false);
    assert size + [CR, LF] + rest == size + ([CR, LF] + rest);
    var bytes := [CR, LF] + rest;
    assert bytes[1..] == [LF] + rest && bytes[1..][1..] == rest;
    assert Step(Line(v), CR, false).0 == Skip(v) && Step(Skip(v), LF, false).0 == EndLine(v, false).0;
    assert NoLateSize(Skip(v), bytes[1..], false);
  }

  /// An encoded body has no late characters, whatever follows it.
  lemma {:induction false} EncodedIsNotLate(chunks: seq<Chunk>, last: seq<byte>, rest: seq<byte>)
    requires (forall c <- chunks :: ChunkOk(c)) && LastOk(last)
    ensures NoLateSize(Line(0), ChunkedBody(chunks, last) + rest, false)
    decreases |chunks|
  {
    hide Feed, NoLateSize;
    if chunks == [] {
      var tail := [CR, LF] + rest;
      assert ChunkedBody(chunks, last) + rest == last + [CR, LF] + tail;
      TailNotLate(rest);
      LineNotLate(last, tail);
    } else {
      var c, following := chunks[0], ChunkedBody(chunks[1..], last) + rest;
      EncodedIsNotLate(chunks[1..], last, rest);
      assert c in chunks && ChunkOk(c);
      ChunkNotLate(c, following);
      FirstChunk(chunks, last, rest);
    }
  }

  lemma ChunkNotLate(c: Chunk, following: seq<byte>)
    requires ChunkOk(c) && NoLateSize(Line(0), following, false)
    ensures NoLateSize(Line(0), EncodeChunk(c) + following, false)
  {
    hide Feed, NoLateSize;
    var data := c.data + [CR, LF];
    NeverLate(Body(|data|), data, false);
    FeedBody(|data|, data, false);
    FedNothing(Line(0), data[|data|..], false);
    assert data[|data|..] == [];
    NoLateSizeAppend(Body(|data|), data, following, false);
    LineNotLate(c.size, data + following);
    assert EncodeChunk(c) + following == c.size + [CR, LF] + (data + following);
  }

  lemma TailNotLate(rest: seq<byte>)
    ensures NoLateSize(Tail(2), [CR, LF] + rest, false)
  {
    var tail := [CR, LF] + rest;
    assert tail[1..] == [LF] + rest;
    assert Step(Tail(2), CR, false).0 == Tail(1) && Step(Tail(1), LF, false).0 == Done;
    assert NoLateSize(Tail(1), tail[1..], false);
  }

  /// However an encoded body, and what follows it, is split into fragments, the decoder emits the
  /// content and then one end marker, ends with state 0, and uses exactly the encoded body.
  lemma FragmentsRoundTrip(chunks: seq<Chunk>, last: seq<byte>, rest: seq<byte>, fragments: seq<seq<byte>>)
    requires (forall c <- chunks :: ChunkOk(c)) && LastOk(last) && Joined(fragments) == ChunkedBody(chunks, last) + rest
    ensures ReadAll(Line(0), fragments, false) ==
              Fed(Done, DataEvents(Content(chunks)) + [EndOfBody], |ChunkedBody(chunks, last)|)
  {
    hide Feed, Read, ReadAll;
    EncodedIsNotLate(chunks, last, rest);
    FragmentsAgree(Line(0), fragments, false);
    RoundTrip(chunks, last, rest);
    ReadDone(Line(0), Joined(fragments));
  }

  lemma ReadDone(m: Mode, bytes: seq<byte>)
    requires Feed(m, bytes, false).mode == Done
    ensures Read(m, bytes, false) == Feed(m, bytes, false)
  {}

  lemma EventsReassociate(a: seq<Event>, b: seq<Event>, c: seq<Event>)
    ensures (a + b) + c == a + (b + c)
  {}

  lemma {:induction false} AllEventsAppend(a: seq<seq<byte>>, b: seq<seq<byte>>)
    ensures AllEvents(a + b) == AllEvents(a) + AllEvents(b)
    decreases |b|
  {
    hide EventsOf;
    if b == [] {
      assert a + b == a && AllEvents(a) + [] == AllEvents(a);
    } else {
      var n := |b| - 1;
      AllEventsAppend(a, b[..n]);
      assert (a + b)[..|a + b| - 1] == a + b[..n] && (a + b)[|a + b| - 1] == b[n];
      EventsReassociate(AllEvents(a), AllEvents(b[..n]), EventsOf(Some(b[n])));
    }
  }

  lemma ReadAllOne(m: Mode, fragments: seq<seq<byte>>, trailer: bool)
    ensures fragments == [] || Stopped(m) ==> ReadAll(m, fragments, trailer) == Fed(m, [], 0)
    ensures fragments != [] && !Stopped(m) ==>
              var f := Read(m, fragments[0], trailer);
              ReadAll(m, fragments, trailer) == After(f.events, f.used, ReadAll(f.mode, fragments[1..], trailer))
    ensures ReadAll(m, fragments, trailer) == After([], 0, ReadAll(m, fragments, trailer))
  {
    assert [] + ReadAll(m, fragments, trailer).events == ReadAll(m, fragments, trailer).events;
  }

  lemma ReadUsesUp(m: Mode, bytes: seq<byte>, trailer: bool)
    requires Valid(m)
    ensures Read(m, bytes, trailer).used <= |bytes|
    ensures !Stopped(Read(m, bytes, trailer).mode) ==> Read(m, bytes, trailer).used == |bytes|
  {
    FeedKeepsValid(m, bytes, trailer);
  }

  lemma PackStops(m: Mode)
    requires Valid(m) && !m.Skip?
    ensures Stopped(m) <==> Pack(m) == 0 || Pack(m) == STATE_IS_ERROR
  {
    PackIsExact(m, Done);
    PackIsExact(m, Error);
  }

  /// Fragments as they arrive: each is decoded if the body has neither ended nor failed before.
  method DecodeFragments(fragments: seq<seq<byte>>, trailer: bool) returns (chunks: seq<seq<byte>>, state: nat,
                         unused: seq<byte>, read: nat)
    requires forall f <- fragments :: |f| < 0x1_0000_0000
    ensures var f := ReadAll(Line(0), fragments, trailer);
            && AllEvents(chunks) == f.events && state == Pack(f.mode)
            && read <= |fragments| && f.used <= |Joined(fragments)|
            && unused + Joined(fragments[read..]) == Joined(fragments)[f.used..]
  {
    hide Read, ReadAll, Pack, DataEvents, After;
    chunks, state, unused, read := [], STATE_IS_CHUNKED, [], 0;
    PackedConstants(0);
    ghost var m: Mode, used: nat := Line(0), 0;
    ReadAllOne(m, fragments, trailer);
    assert fragments[0..] == fragments && unused + Joined(fragments) == Joined(fragments)[0..];
    PackStops(m);
    while read < |fragments| && state != 0 && state != STATE_IS_ERROR
      invariant read <= |fragments| && Valid(m) && !m.Skip? && state == Pack(m)
      invariant ReadAll(Line(0), fragments, trailer) ==
                After(AllEvents(chunks), used, ReadAll(m, fragments[read..], trailer))
      invariant used <= |Joined(fragments)| && unused + Joined(fragments[read..]) == Joined(fragments)[used..]
      invariant Stopped(m) <==> state == 0 || state == STATE_IS_ERROR
      invariant unused == [] || Stopped(m)
    {
      ghost var rest, m1 := fragments[read..], m;
      ghost var n;
      var more;
      assert rest[0] == fragments[read] && rest[1..] == fragments[read + 1..];
      ReadAllOne(m, rest, trailer);
      ReadUsesUp(m, rest[0], trailer);
      assert fragments[read] in fragments;
      more, unused, state, m, n := DecodeFragment(fragments[read], state, trailer, m);
      AfterAfter(AllEvents(chunks), used, AllEvents(more), n, ReadAll(m, rest[1..], trailer));
      AllEventsAppend(chunks, more);
      DropMore(Joined(fragments), used, rest[0], Joined(rest[1..]), n);
      chunks := chunks + more;
      used := used + n;
      read := read + 1;
      PackStops(m);
    }
    ReadAllOne(m, fragments[read..], trailer);
    AfterNothing(AllEvents(chunks), used, m);
  }

  lemma DropMore(all: seq<byte>, used: nat, a: seq<byte>, b: seq<byte>, n: nat)
    requires used <= |all| && all[used..] == a + b && n <= |a|
    ensures used + n <= |all| && all[used + n..] == a[n..] + b
  {
    assert all[used + n..] == all[used..][n..] == (a + b)[n..];
  }

  lemma AfterNothing(events: seq<Event>, used: nat, m: Mode)
    ensures After(events, used, Fed(m, [], 0)) == Fed(m, events, used)
  {
    assert events + [] == events;
  }
}
