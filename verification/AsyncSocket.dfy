/// Corked and buffered writing (AsyncSocket.h, AsyncSocketData.h, the cork fields of LoopData.h):
/// many sockets share one cork buffer, each has a backpressure buffer of its own, and a system
/// call takes as much of what it is given as it likes.
module AsyncSocket {

  type byte = b: int | 0 <= b < 256

  const CORK_BUFFER_SIZE: nat := 16 * 1024

  function Zeros(n: nat): (z: seq<byte>)
    ensures |z| == n && forall i | 0 <= i < n :: z[i] == 0
  {
    seq(n, _ => 0)
  }

  /// What memcpy of `data` to position `at` makes of `bytes`.
  function Splice(bytes: seq<byte>, at: nat, data: seq<byte>): (spliced: seq<byte>)
    requires at + |data| <= |bytes|
    ensures |spliced| == |bytes|
  {
    bytes[..at] + data + bytes[at + |data|..]
  }

  lemma SpliceBehind(bytes: seq<byte>, from: nat, at: nat, data: seq<byte>)
    requires from + at + |data| <= |bytes|
    ensures Splice(bytes, from + at, data)[from..] == Splice(bytes[from..], at, data)
    ensures Splice(bytes, from + at, data)[..from] == bytes[..from]
  {
    var a, b, c := bytes[..from], bytes[from..][..at], bytes[from + at + |data|..];
    assert bytes[..from + at] == a + b;
    assert bytes[from..][at + |data|..] == c;
    assert Splice(bytes, from + at, data) == a + (b + data + c);
  }

  lemma SpliceOne(bytes: seq<byte>, at: nat, data: seq<byte>, i: nat)
    requires at + |data| <= |bytes| && i < |data|
    ensures Splice(bytes, at, data[..i])[at + i := data[i]] == Splice(bytes, at, data[..i + 1])
  {}

  /// `bytes` with `data` in place of its last bytes.
  function Ended(bytes: seq<byte>, data: seq<byte>): (ended: seq<byte>)
    requires |data| <= |bytes|
    ensures |ended| == |bytes|
  {
    bytes[..|bytes| - |data|] + data
  }

  lemma SpliceEnd(bytes: seq<byte>, at: nat, data: seq<byte>)
    requires at + |data| == |bytes|
    ensures Splice(bytes, at, data) == Ended(bytes, data)
  {}

  // -------------------------------------------------------- backpressure

  class BackPressure {
    var buffer: seq<byte>
    var pendingRemoval: nat

    ghost predicate Valid()
      reads this
    {
      32 * pendingRemoval <= |buffer|
    }

    /// What has not been removed yet.
    ghost function View(): seq<byte>
      reads this
      requires Valid()
    {
      buffer[pendingRemoval..]
    }

    constructor ()
      ensures Valid() && View() == []
    {
      buffer, pendingRemoval := [], 0;
    }

    function Length(): (n: nat)
      reads this
      requires Valid()
      ensures n == |View()|
    {
      |buffer| - pendingRemoval
    }

    /// What `data` points to.
    function Data(): (d: seq<byte>)
      reads this
      requires Valid()
      ensures d == View()
    {
      buffer[pendingRemoval..]
    }

    method Append(data: seq<byte>)
      requires Valid()
      modifies this
      ensures Valid() && View() == old(View()) + data
    {
      buffer := buffer + data;
    }

    /// Removes a prefix, but only moves the rest when the removed part exceeds a 32nd of it all.
    method Erase(length: nat)
      requires Valid() && length <= |View()|
      modifies this
      ensures Valid() && View() == old(View())[length..]
    {
      pendingRemoval := pendingRemoval + length;
      if pendingRemoval > |buffer| / 32 {
        buffer := buffer[pendingRemoval..];
        pendingRemoval := 0;
      }
    }

    method Clear()
      requires Valid()
      modifies this
      ensures Valid() && View() == []
    {
      pendingRemoval := 0;
      buffer := [];
    }

    /// Only ever used to grow.
    method Resize(length: nat)
      requires Valid() && |View()| <= length
      modifies this
      ensures Valid() && View() == old(View()) + Zeros(length - |old(View())|)
    {
      buffer := buffer + Zeros(length + pendingRemoval - |buffer|);
    }

    /// memcpy into what `data` points to.
    method Overwrite(at: nat, data: seq<byte>)
      requires Valid() && at + |data| <= |View()|
      modifies this
      ensures Valid() && View() == Splice(old(View()), at, data)
    {
      SpliceBehind(buffer, pendingRemoval, at, data);
      buffer := Splice(buffer, pendingRemoval + at, data);
    }
  }

  // ------------------------------------------------- the shared cork buffer

  class LoopData {
    const corkBuffer: array<byte>
    var corkOffset: nat
    var corkedSocket: AsyncSocket?

    ghost predicate Valid()
      reads this
    {
      corkBuffer.Length == CORK_BUFFER_SIZE && corkOffset <= CORK_BUFFER_SIZE
    }

    /// With nobody corked the cork buffer is empty.
    ghost predicate Settled()
      reads this
    {
      corkedSocket == null ==> corkOffset == 0
    }

    ghost function Corked(): seq<byte>
      reads this, corkBuffer
      requires Valid()
    {
      corkBuffer[..corkOffset]
    }

    constructor ()
      ensures Valid() && Corked() == [] && corkedSocket == null && fresh(corkBuffer)
    {
      corkBuffer := new byte[CORK_BUFFER_SIZE](_ => 0);
      corkOffset, corkedSocket := 0, null;
    }

    /// memcpy into the cork buffer.
    method Overwrite(at: nat, data: seq<byte>)
      requires Valid() && at + |data| <= CORK_BUFFER_SIZE
      modifies corkBuffer
      ensures corkBuffer[..] == Splice(old(corkBuffer[..]), at, data)
    {
      var i := 0;
      while i < |data|
        invariant 0 <= i <= |data|
        invariant corkBuffer[..] == Splice(old(corkBuffer[..]), at, data[..i])
      {
        SpliceOne(old(corkBuffer[..]), at, data, i);
        corkBuffer[at + i] := data[i];
        i := i + 1;
      }
      assert data[..i] == data;
    }

    /// memcpy behind what is in the cork buffer.
    method Put(data: seq<byte>)
      requires Valid() && corkOffset + |data| <= CORK_BUFFER_SIZE
      modifies this`corkOffset, corkBuffer
      ensures Valid() && Corked() == old(Corked()) + data && corkOffset == old(corkOffset) + |data|
    {
      ghost var all := corkBuffer[..];
      Overwrite(corkOffset, data);
      SpliceBefore(all, corkOffset, data);
      corkOffset := corkOffset + |data|;
    }
  }

  lemma SpliceBefore(bytes: seq<byte>, at: nat, data: seq<byte>)
    requires at + |data| <= |bytes|
    ensures Splice(bytes, at, data)[..at + |data|] == bytes[..at] + data
  {}

  // ------------------------------------------------------------- sockets

  /// What reaches the peer: what has been sent, then the backpressure, then what is corked.
  function Flow(sent: seq<byte>, view: seq<byte>, own: seq<byte>): seq<byte> {
    sent + view + own
  }

  lemma FlowCorked(sent: seq<byte>, view: seq<byte>, own: seq<byte>, src: seq<byte>)
    ensures Flow(sent, view, own + src) == Flow(sent, view, own) + src
  {
    assert (sent + view) + (own + src) == ((sent + view) + own) + src;
  }

  lemma FlowDrained(sent: seq<byte>, view: seq<byte>, own: seq<byte>, n: nat)
    requires n <= |view|
    ensures Flow(sent + view[..n], view[n..], own) == Flow(sent, view, own)
    ensures n == |view| ==> view[n..] == []
    ensures n < |view| ==> view[n..] != []
  {
    assert (sent + view[..n]) + view[n..] == sent + view;
  }

  lemma FlowBuffered(sent: seq<byte>, view: seq<byte>, own: seq<byte>, src: seq<byte>)
    ensures Flow(sent, view + own + src, []) == Flow(sent, view, own) + src
    ensures Flow(sent, view + src, []) == Flow(sent, view, []) + src
  {
    assert sent + (view + own + src) + [] == ((sent + view) + own) + src;
    assert sent + (view + src) + [] == ((sent + view) + []) + src;
  }

  lemma FlowDirect(sent: seq<byte>, src: seq<byte>, taken: nat, accepted: nat)
    requires taken <= accepted <= |src|
    ensures Flow(sent + src[..taken], src[taken..accepted], []) == Accepting(Flow(sent, [], []), src, accepted)
    ensures taken < accepted ==> src[taken..accepted] != []
    ensures src[taken..taken] == [] && src[taken..|src|] == src[taken..] && src[..|src|] == src
  {
    assert src[..taken] + src[taken..accepted] == src[..accepted];
    assert (sent + src[..taken]) + src[taken..accepted] + [] == (sent + [] + []) + src[..accepted];
  }

  lemma FlowReplaced(sent: seq<byte>, view: seq<byte>, own: seq<byte>, data: seq<byte>)
    ensures |Flow(sent, view, own)| == |sent| + |view| + |own|
    ensures |data| <= |own| ==> Flow(sent, view, Ended(own, data)) == Ended(Flow(sent, view, own), data)
    ensures |data| <= |view| ==> Flow(sent, Ended(view, data), []) == Ended(Flow(sent, view, []), data)
  {
    var n := |data|;
    if n <= |own| {
      var f := Flow(sent, view, own);
      assert f[..|f| - n] == (sent + view) + own[..|own| - n];
      assert (sent + view) + (own[..|own| - n] + data) == ((sent + view) + own[..|own| - n]) + data;
    }
    if n <= |view| {
      var f := Flow(sent, view, []);
      assert f[..|f| - n] == sent + view[..|view| - n];
      assert sent + (view[..|view| - n] + data) + [] == (sent + view[..|view| - n]) + data;
    }
  }

  /// A stream once the first `n` bytes of `src` have been accepted.
  function Accepting(stream: seq<byte>, src: seq<byte>, n: nat): seq<byte>
    requires n <= |src|
  {
    stream + src[..n]
  }

  lemma AcceptingNothing(stream: seq<byte>, src: seq<byte>)
    ensures Accepting(stream, src, 0) == stream
  {}

  lemma AcceptingAll(stream: seq<byte>, src: seq<byte>)
    ensures Accepting(stream, src, |src|) == stream + src
  {}

  lemma AcceptingPrefix(stream: seq<byte>, src: seq<byte>, n: nat)
    requires n <= |src|
    ensures Accepting(stream, src, n) == stream + src[..n]
  {}

  /// The system has taken the first `taken` bytes of what was corked, and more only if it took all of that.
  predicate Flushed(before: seq<byte>, corked: seq<byte>, taken: nat, after: seq<byte>) {
    && taken <= |corked|
    && before + corked[..taken] <= after
    && (taken < |corked| ==> after == before + corked[..taken])
  }

  lemma FlushedThen(before: seq<byte>, corked: seq<byte>, taken: nat, between: seq<byte>, after: seq<byte>)
    requires taken <= |corked| && between == Accepting(before, corked, taken)
    ensures Flushed(before, corked, taken, between)
    ensures taken == |corked| && Extends(between, after) ==> Flushed(before, corked, taken, after)
  {}

  predicate Extends(before: seq<byte>, after: seq<byte>) { before <= after }

  lemma ExtendsThen(a: seq<byte>, b: seq<byte>, c: seq<byte>)
    ensures Extends(a, a)
    ensures Extends(a, b) && Extends(b, c) ==> Extends(a, c)
  {}

  lemma AcceptingExtends(stream: seq<byte>, src: seq<byte>, n: nat)
    requires n <= |src|
    ensures Extends(stream, Accepting(stream, src, n))
  {}

  lemma EndedAppended(stream: seq<byte>, reserved: seq<byte>, data: seq<byte>)
    requires |reserved| == |data|
    ensures Ended(stream + reserved, data) == stream + data
  {
    assert (stream + reserved)[..|stream|] == stream;
  }

  lemma FlowFlushed(sent: seq<byte>, view: seq<byte>, own: seq<byte>)
    ensures Flow(sent, view, own) == Accepting(Flow(sent, view, []), own, |own|)
  {
    assert (sent + view + []) + own[..|own|] == sent + view + own;
  }

  datatype SendBufferAttribute = NEEDS_NOTHING | NEEDS_DRAIN | NEEDS_UNCORK

  /// Where a buffer handed out by getSendBuffer starts.
  datatype Region = InCork(offset: nat) | InBackPressure(offset: nat)

  class AsyncSocket {
    const loop: LoopData
    const backPressure: BackPressure
    ghost var sent: seq<byte>          // what the system has taken

    constructor (l: LoopData)
      ensures loop == l && fresh(backPressure) && backPressure.Valid() && |backPressure.View()| == 0 && sent == []
    {
      loop := l;
      backPressure := new BackPressure();
      sent := [];
    }

    ghost predicate Shaped()
      reads this, loop, backPressure
    {
      loop.Valid() && backPressure.Valid()
    }

    ghost function OwnCork(): seq<byte>
      reads this, loop, loop.corkBuffer, backPressure
      requires Shaped()
    {
      if loop.corkedSocket == this then loop.Corked() else []
    }

    /// Everything accepted so far, in the order in which it reaches the peer.
    ghost function Stream(): seq<byte>
      reads this, loop, loop.corkBuffer, backPressure
      requires Shaped()
    {
      Flow(sent, backPressure.View(), OwnCork())
    }

    /// A corked socket with something in the cork buffer has no backpressure.
    ghost predicate Valid()
      reads this, loop, backPressure
    {
      Shaped() && (loop.corkedSocket == this && loop.corkOffset > 0 ==> |backPressure.View()| == 0)
    }

    /// us_socket_write: the system takes any part of the data.
    method SocketWrite(data: seq<byte>) returns (written: nat)
      modifies this`sent
      ensures written <= |data| && sent == Accepting(old(sent), data, written)
    {
      written :| written <= |data|;
      sent := sent + data[..written];
    }

    predicate IsCorked()
      reads this, loop
    {
      loop.corkedSocket == this
    }

    predicate CanCork()
      reads this, loop
    {
      loop.corkedSocket == null
    }

    /// Corks this socket; `false` stands for std::terminate.
    method Cork() returns (ok: bool)
      requires Valid()
      modifies loop`corkedSocket
      ensures ok <==> !(loop.corkOffset > 0 && old(loop.corkedSocket) != this)
      ensures loop.corkedSocket == if ok then this else old(loop.corkedSocket)
      ensures ok ==> Valid() && Stream() == old(Stream())
    {
      if loop.corkOffset > 0 && loop.corkedSocket != this {
        return false;
      }
      loop.corkedSocket := this;
      return true;
    }

    /// Drains as much of the backpressure as the system takes.
    method DrainBackPressure() returns (rest: bool)
      requires Valid() && |backPressure.View()| > 0
      modifies backPressure, this`sent
      ensures Valid() && Stream() == old(Stream())
      ensures rest <==> |backPressure.View()| > 0
      ensures Extends(old(sent), sent)
    {
      hide Flow, Accepting, Extends;
      ghost var view, before := backPressure.View(), sent;
      var written := SocketWrite(backPressure.Data());
      AcceptingPrefix(before, view, written);
      AcceptingExtends(before, view, written);
      FlowDrained(before, view, OwnCork(), written);
      rest := written < backPressure.Length();
      if rest {
        backPressure.Erase(written);
      } else {
        backPressure.Clear();
      }
    }

    /// Puts `src` behind the backpressure.
    method Buffer(src: seq<byte>)
      requires Valid() && |backPressure.View()| > 0
      modifies backPressure
      ensures Valid() && Stream() == Accepting(old(Stream()), src, |src|) && |backPressure.View()| > 0
    {
      hide Flow, Accepting;
      AcceptingAll(Stream(), src);
      FlowBuffered(sent, backPressure.View(), [], src);
      assert OwnCork() == [];
      backPressure.Append(src);
    }

    /// Puts `src` into the cork buffer.
    method CorkUp(src: seq<byte>)
      requires Valid() && IsCorked() && |backPressure.View()| == 0 && loop.corkOffset + |src| <= CORK_BUFFER_SIZE
      modifies loop`corkOffset, loop.corkBuffer
      ensures Valid() && Stream() == Accepting(old(Stream()), src, |src|)
      ensures loop.corkOffset == old(loop.corkOffset) + |src|
    {
      hide Flow, Accepting;
      AcceptingAll(Stream(), src);
      FlowCorked(sent, backPressure.View(), OwnCork(), src);
      loop.Put(src);
    }

    /// The write of a socket that is neither corked nor has backpressure.
    method WriteDirectly(src: seq<byte>, optionally: bool) returns (accepted: nat, failed: bool, ghost taken: nat)
      requires Valid() && |backPressure.View()| == 0 && !IsCorked()
      modifies backPressure, this`sent
      ensures Valid() && accepted <= |src| && Stream() == Accepting(old(Stream()), src, accepted)
      ensures !optionally ==> accepted == |src|
      ensures !optionally && failed ==> |backPressure.View()| > 0
      ensures !failed ==> accepted == |src| && |backPressure.View()| == 0
      ensures taken <= |src| && sent == Accepting(old(sent), src, taken) && (failed <==> taken < |src|)
    {
      hide Flow, Accepting;
      ghost var before := sent;
      var written := SocketWrite(src);
      taken := written;
      AcceptingPrefix(before, src, written);
      FlowDirect(before, src, written, |src|);
      FlowDirect(before, src, written, written);
      if written < |src| {
        if optionally {
          return written, true, taken;
        }
        AppendNothing(src[written..]);
        backPressure.Append(src[written..]);
        return |src|, true, taken;
      }
      return |src|, false, taken;
    }

    /// Writes to the cork buffer, the system, or the backpressure, in this order of preference,
    /// and returns how much of `src` was accepted.  A write that is not optional accepts all of
    /// it, with one exception: the socket is corked with something in the cork buffer, `src` does
    /// not fit in behind it, and the system does not take all that is there; then it accepts nothing.
    ///
    /// `taken` is how much the system took of the first thing it was given: of what was corked in
    /// that case, and of `src` if the socket is not corked and has no backpressure.
    method Write(src: seq<byte>, optionally: bool, nextLength: nat) returns (accepted: nat, failed: bool,
                 ghost taken: nat)
      requires Valid()
      modifies loop, loop.corkBuffer, backPressure, this`sent
      ensures Valid() && accepted <= |src|
      ensures Stream() == Accepting(old(Stream()), src, accepted)
      ensures !old(IsCorked()) ==>
                loop.corkedSocket == old(loop.corkedSocket) && loop.corkOffset == old(loop.corkOffset)
      ensures !old(IsCorked()) ==> loop.corkBuffer[..] == old(loop.corkBuffer[..])
      ensures old(IsCorked()) ==> IsCorked() || (CanCork() && loop.corkOffset == 0)
      ensures old(Overflows(src)) ==> Flushed(old(sent), old(loop.Corked()), taken, sent)
      ensures !optionally ==> (accepted < |src| <==> old(Overflows(src)) && taken < old(loop.corkOffset))
      ensures !optionally && accepted < |src| ==> accepted == 0 && failed
      ensures failed && !optionally ==> |backPressure.View()| > 0
      ensures !failed ==> accepted == |src| && |backPressure.View()| == 0
      ensures Extends(old(sent), sent)
      ensures old(IsCorked()) && |old(backPressure.View())| == 0 && old(loop.corkOffset) + |src| <= CORK_BUFFER_SIZE ==>
                IsCorked() && loop.corkOffset == old(loop.corkOffset) + |src| && sent == old(sent)
      ensures !old(IsCorked()) && |old(backPressure.View())| == 0 ==>
                taken <= |src| && sent == Accepting(old(sent), src, taken) && (failed <==> taken < |src|)
      decreases if loop.corkedSocket == this then 2 else 0
    {
      hide Stream, Accepting, Extends, Flushed, BackPressure.View;
      AcceptingNothing(Stream(), src);
      AcceptingNothing(sent, src);
      ExtendsThen(sent, sent, sent);
      ghost var before := sent;
      taken := 0;
      if backPressure.Length() > 0 {
        var rest := DrainBackPressure();
        if rest {
          if optionally {
            return 0, true, taken;
          } else {
            Buffer(src);
            return |src|, true, taken;
          }
        }
      }
      ghost var between := sent;
      if |src| > 0 {
        if loop.corkedSocket == this {
          if CORK_BUFFER_SIZE - loop.corkOffset >= |src| {
            CorkUp(src);
          } else {
            accepted, failed, taken := Uncork(src, optionally);
            ExtendsThen(before, between, sent);
            return;
          }
        } else {
          accepted, failed, taken := WriteDirectly(src, optionally);
          AcceptingExtends(between, src, taken);
          ExtendsThen(before, between, sent);
          return;
        }
      }
      return |src|, false, taken;
    }

    /// The socket is corked, and `src` does not fit in behind what is corked.
    predicate Overflows(src: seq<byte>)
      reads this, loop
    {
      IsCorked() && 0 < loop.corkOffset && loop.corkOffset + |src| > CORK_BUFFER_SIZE
    }

    /// Flushes or buffers what has been corked, then writes `src`; `taken` is how much of what was
    /// corked the system took.
    method Uncork(src: seq<byte>, optionally: bool) returns (accepted: nat, failed: bool, ghost taken: nat)
      requires Valid()
      modifies loop, loop.corkBuffer, backPressure, this`sent
      ensures Valid() && accepted <= |src|
      ensures Stream() == Accepting(old(Stream()), src, accepted)
      ensures !old(IsCorked()) ==>
                loop.corkedSocket == old(loop.corkedSocket) && loop.corkOffset == old(loop.corkOffset)
      ensures !old(IsCorked()) ==> loop.corkBuffer[..] == old(loop.corkBuffer[..]) && accepted == 0 && !failed
      ensures old(IsCorked()) ==> CanCork() && loop.corkOffset == 0
      ensures old(IsCorked()) && 0 < old(loop.corkOffset) ==> Flushed(old(sent), old(loop.Corked()), taken, sent)
      ensures old(IsCorked()) && !optionally ==>
                (accepted < |src| <==> |src| > 0 && 0 < old(loop.corkOffset) && taken < old(loop.corkOffset))
      ensures old(IsCorked()) && !optionally && accepted < |src| ==> accepted == 0 && failed
      ensures old(IsCorked()) && failed && !optionally ==> |backPressure.View()| > 0
      ensures old(IsCorked()) && !failed ==> accepted == |src| && |backPressure.View()| == 0
      ensures Extends(old(sent), sent)
      decreases 1
    {
      hide Flow, Accepting, Extends, Flushed, BackPressure.View;
      AcceptingNothing(Stream(), src);
      FlowFlushed(sent, backPressure.View(), OwnCork());
      ghost var before, corked := sent, OwnCork();
      ExtendsThen(before, before, before);
      taken := 0;
      if loop.corkedSocket == this {
        assert loop.corkOffset == 0 ==> loop.Corked() == [];
        loop.corkedSocket := null;
        if loop.corkOffset > 0 {
          var _, failed0, took := Write(loop.corkBuffer[..loop.corkOffset], false, |src|);
          loop.corkOffset, taken := 0, took;
          FlushedThen(before, corked, taken, sent, sent);
          if failed0 {
            return 0, true, taken;
          }
        }
        ghost var between := sent;
        var n, f, _ := Write(src, optionally, 0);
        accepted, failed := n, f;
        ExtendsThen(before, between, sent);
        if |corked| > 0 { FlushedThen(before, corked, taken, between, sent); }
      } else {
        return 0, false, taken;
      }
    }

    /// Reserves `size` bytes at the end of the stream for the caller to fill in: in the cork
    /// buffer if there is no backpressure and the cork is ours or free and has more room than
    /// that, else in the backpressure, behind what we have corked.
    method GetSendBuffer(size: nat) returns (region: Region, attribute: SendBufferAttribute, ghost reserved: seq<byte>)
      requires Valid() && loop.Settled()
      modifies loop`corkOffset, loop`corkedSocket, backPressure
      ensures Valid() && loop.Settled() && |reserved| == size
      ensures Stream() == old(Stream()) + reserved
      ensures InRegion(region, size)
      ensures attribute != NEEDS_DRAIN <==>
                old(|backPressure.View()| == 0 && (IsCorked() || CanCork())
                    && loop.corkOffset + size < CORK_BUFFER_SIZE)
      ensures attribute == NEEDS_DRAIN <==> region.InBackPressure?
      ensures attribute == NEEDS_UNCORK ==> old(CanCork()) && IsCorked()
      ensures attribute != NEEDS_UNCORK ==> loop.corkedSocket == old(loop.corkedSocket)
      ensures !old(IsCorked()) && !old(CanCork()) ==> loop.corkOffset == old(loop.corkOffset)
    {
      if backPressure.Length() == 0 && (IsCorked() || CanCork()) && loop.corkOffset + size < CORK_BUFFER_SIZE {
        attribute := NEEDS_NOTHING;
        if !IsCorked() {
          var _ := Cork();
          attribute := NEEDS_UNCORK;
        }
        region, reserved := ReserveCork(size);
      } else {
        region, reserved := ReserveBackPressure(size);
        attribute := NEEDS_DRAIN;
      }
    }

    method ReserveCork(size: nat) returns (region: Region, ghost reserved: seq<byte>)
      requires Valid() && IsCorked() && |backPressure.View()| == 0 && loop.corkOffset + size < CORK_BUFFER_SIZE
      modifies loop`corkOffset
      ensures Valid() && |reserved| == size && Stream() == old(Stream()) + reserved
      ensures region.InCork? && InRegion(region, size)
    {
      hide Flow;
      ghost var own, at := OwnCork(), loop.corkOffset;
      region := InCork(loop.corkOffset);
      loop.corkOffset := loop.corkOffset + size;
      reserved := loop.corkBuffer[at..at + size];
      FlowCorked(sent, backPressure.View(), own, reserved);
      assert OwnCork() == own + reserved;
    }

    method ReserveBackPressure(size: nat) returns (region: Region, ghost reserved: seq<byte>)
      requires Valid() && loop.Settled()
      modifies loop`corkOffset, backPressure
      ensures Valid() && |reserved| == size && Stream() == old(Stream()) + reserved
      ensures region.InBackPressure? && InRegion(region, size)
      ensures !old(IsCorked()) ==> loop.corkOffset == old(loop.corkOffset)
      ensures loop.Settled()
    {
      hide Flow;
      ghost var view, own := backPressure.View(), OwnCork();
      var existingBackpressure := backPressure.Length();
      var ourCorkOffset := 0;
      if IsCorked() && loop.corkOffset > 0 {
        ourCorkOffset := loop.corkOffset;
        loop.corkOffset := 0;
      }
      assert own == loop.corkBuffer[..ourCorkOffset];
      TakeOver(existingBackpressure, loop.corkBuffer[..ourCorkOffset], size);
      region := InBackPressure(ourCorkOffset + existingBackpressure);
      reserved := Zeros(size);
      FlowBuffered(sent, view, own, reserved);
      assert OwnCork() == [];
    }

    /// Makes room in the backpressure, and puts what was corked in front of it.
    method TakeOver(existing: nat, corked: seq<byte>, size: nat)
      requires backPressure.Valid() && existing == |backPressure.View()|
      modifies backPressure
      ensures backPressure.Valid() && backPressure.View() == old(backPressure.View()) + corked + Zeros(size)
    {
      ghost var view := backPressure.View();
      backPressure.Resize(|corked| + existing + size);
      backPressure.Overwrite(existing, corked);
      MovedInFront(view, corked, size);
    }

    /// The region is the end of the stream.
    ghost predicate InRegion(region: Region, size: nat)
      reads this, loop, backPressure
      requires Shaped()
    {
      match region
      case InCork(offset) => loop.corkedSocket == this && offset + size == loop.corkOffset
      case InBackPressure(offset) =>
          offset + size == |backPressure.View()| && (loop.corkedSocket == this ==> loop.corkOffset == 0)
    }

    /// What the caller of getSendBuffer does with the buffer.
    method Fill(region: Region, data: seq<byte>)
      requires Valid() && InRegion(region, |data|)
      modifies loop.corkBuffer, backPressure
      ensures Valid() && |data| <= old(|Stream()|) && Stream() == Ended(old(Stream()), data)
      ensures region.InBackPressure? ==> loop.corkBuffer[..] == old(loop.corkBuffer[..])
    {
      match region {
        case InCork(offset) => FillCork(offset, data);
        case InBackPressure(offset) => FillBackPressure(offset, data);
      }
    }

    method FillCork(offset: nat, data: seq<byte>)
      requires Valid() && InRegion(InCork(offset), |data|)
      modifies loop.corkBuffer
      ensures Valid() && |data| <= old(|Stream()|) && Stream() == Ended(old(Stream()), data)
    {
      hide Splice, Flow, Ended;
      ghost var own, all := OwnCork(), loop.corkBuffer[..];
      FlowReplaced(sent, backPressure.View(), own, data);
      loop.Overwrite(offset, data);
      SpliceEndsCork(all, offset, data);
      assert OwnCork() == Ended(own, data);
    }

    method FillBackPressure(offset: nat, data: seq<byte>)
      requires Valid() && InRegion(InBackPressure(offset), |data|)
      modifies backPressure
      ensures Valid() && |data| <= old(|Stream()|) && Stream() == Ended(old(Stream()), data)
    {
      hide Splice, Flow, Ended, BackPressure.View;
      ghost var view := backPressure.View();
      FlowReplaced(sent, view, [], data);
      SpliceEnd(view, offset, data);
      assert OwnCork() == [];
      backPressure.Overwrite(offset, data);
      assert OwnCork() == [];
      assert Stream() == Flow(sent, Ended(view, data), []);
    }
  }

  lemma AppendNothing(a: seq<byte>)
    ensures [] + a == a == a + []
  {}

  lemma SpliceEndsCork(all: seq<byte>, at: nat, data: seq<byte>)
    requires at + |data| <= |all|
    ensures Splice(all, at, data)[..at + |data|] == Ended(all[..at + |data|], data)
  {
    SpliceBefore(all, at, data);
    assert all[..at + |data|][..at] == all[..at];
  }

  lemma Reassociate(a: seq<byte>, b: seq<byte>, c: seq<byte>)
    ensures a + (b + c) == (a + b) + c
  {}

  lemma MovedInFront(view: seq<byte>, own: seq<byte>, size: nat)
    ensures var grown := view + Zeros(|own| + size);
            Splice(grown, |view|, own) == view + own + Zeros(size)
  {}

  /// Whether a write that is not optional accepts what it is given is up to the system.
  method WriteBehindOneByte() returns (accepted: nat, ghost taken: nat)
    ensures taken <= 1 && accepted == if taken == 1 then CORK_BUFFER_SIZE else 0
  {
    hide AsyncSocket.Stream, Accepting, Extends;
    var loop := new LoopData();
    var s := new AsyncSocket(loop);
    var _ := s.Cork();
    var _, _, _ := s.Write(Zeros(1), false, 0);
    var n, _, took := s.Write(Zeros(CORK_BUFFER_SIZE), false, 0);
    accepted, taken := n, took;
  }

  // ------------------------------------------- many sockets on one loop

  datatype Call =
    | CallCork
    | CallWrite(src: seq<byte>, optionally: bool, nextLength: nat)
    | CallUncork(src: seq<byte>, optionally: bool)
    | CallSend(data: seq<byte>)      // getSendBuffer, and filling the buffer

  ghost predicate AllValid(loop: LoopData, sockets: seq<AsyncSocket>)
    reads loop, set s <- sockets :: s, set s <- sockets :: s.backPressure
  {
    && loop.Valid() && loop.Settled()
    && (forall s <- sockets :: s.loop == loop && s.Valid())
    && (forall i, j | 0 <= i < j < |sockets| :: sockets[i] != sockets[j]
          && sockets[i].backPressure != sockets[j].backPressure)
  }

  ghost predicate Reported(call: Call, accepted: seq<byte>) {
    match call
    case CallWrite(src, _, _) => accepted <= src
    case CallUncork(src, _) => accepted <= src
    case CallSend(data) => accepted == data
    case CallCork => accepted == []
  }

  /// One call: the socket's stream grows by exactly what the call accepted, and the cork of
  /// another socket is left alone.  `ok` is false where the call terminates the program.
  method PerformOn(s: AsyncSocket, call: Call) returns (accepted: seq<byte>, ok: bool)
    requires s.Valid() && s.loop.Settled()
    modifies s.loop, s.loop.corkBuffer, s.backPressure, s
    ensures ok ==> s.Valid() && s.loop.Settled() && s.Stream() == old(s.Stream()) + accepted
    ensures ok <==> !(call.CallCork? && old(s.loop.corkOffset) > 0 && old(s.loop.corkedSocket) != s)
    ensures ok ==> s.loop.corkedSocket in {s, null, old(s.loop.corkedSocket)}
    ensures ok && old(s.loop.corkedSocket) != s && old(s.loop.corkedSocket) != null ==>
              (s.loop.corkedSocket == old(s.loop.corkedSocket) || old(s.loop.corkOffset) == 0)
              && s.loop.corkOffset == old(s.loop.corkOffset) && s.loop.corkBuffer[..] == old(s.loop.corkBuffer[..])
    ensures Reported(call, accepted)
  {
    hide AsyncSocket.Stream, Accepting, Extends, Flushed, Ended, Flow;
    ghost var before := s.Stream();
    accepted, ok := [], true;
    match call {
      case CallCork =>
        ok := s.Cork();
        AppendNothing(before);
      case CallWrite(src, optionally, nextLength) =>
        var n, _, _ := s.Write(src, optionally, nextLength);
        accepted := src[..n];
        AcceptingPrefix(before, src, n);
      case CallUncork(src, optionally) =>
        var n, _, _ := s.Uncork(src, optionally);
        accepted := src[..n];
        AcceptingPrefix(before, src, n);
      case CallSend(data) =>
        var region, _, reserved := s.GetSendBuffer(|data|);
        s.Fill(region, data);
        EndedAppended(before, reserved, data);
        accepted := data;
    }
  }

  /// The same among all the sockets of a loop: no byte of any other socket moves.
  method Perform(loop: LoopData, sockets: seq<AsyncSocket>, k: nat, call: Call) returns (accepted: seq<byte>, ok: bool)
    requires AllValid(loop, sockets) && k < |sockets|
    modifies loop, loop.corkBuffer, sockets[k].backPressure, sockets[k]
    ensures ok ==> AllValid(loop, sockets)
    ensures ok ==>
              StreamsOf(loop, sockets) ==
              old(StreamsOf(loop, sockets))[k := old(StreamsOf(loop, sockets))[k] + accepted]
    ensures ok <==> !(call.CallCork? && old(loop.corkOffset) > 0 && old(loop.corkedSocket) != sockets[k])
    ensures Reported(call, accepted)
  {
    hide Flow, BackPressure.View;
    var s := sockets[k];
    accepted, ok := PerformOn(s, call);
    if ok {
      forall i | 0 <= i < |sockets| && i != k
        ensures sockets[i].Valid() && sockets[i].Stream() == old(sockets[i].Stream()) {
        assert sockets[i] in sockets && sockets[i] != s && sockets[i].backPressure != s.backPressure;
      }
      assert StreamsOf(loop, sockets) ==
          old(StreamsOf(loop, sockets))[k := old(StreamsOf(loop, sockets))[k] + accepted];
    }
  }

  ghost function Streams(loop: LoopData, sockets: seq<AsyncSocket>): (streams: seq<seq<byte>>)
    reads loop, loop.corkBuffer, set s <- sockets :: s, set s <- sockets :: s.backPressure
    requires forall s <- sockets :: s.loop == loop && s.Shaped()
    ensures |streams| == |sockets| && forall k | 0 <= k < |sockets| :: streams[k] == sockets[k].Stream()
    decreases |sockets|
  {
    if sockets == [] then []
    else
      var n := |sockets| - 1;
      assert forall s <- sockets[..n] :: s in sockets;
      assert sockets[n] in sockets;
      Streams(loop, sockets[..n]) + [sockets[n].Stream()]
  }

  /// The streams of all the sockets of a loop.
  ghost function StreamsOf(loop: LoopData, sockets: seq<AsyncSocket>): (streams: seq<seq<byte>>)
    reads loop, loop.corkBuffer, set s <- sockets :: s, set s <- sockets :: s.backPressure
    requires AllValid(loop, sockets)
    ensures |streams| == |sockets| && forall k | 0 <= k < |sockets| :: streams[k] == sockets[k].Stream()
  {
    Streams(loop, sockets)
  }

  function Collected(log: seq<(nat, seq<byte>)>, k: nat): seq<byte> {
    if log == [] then []
    else Collected(log[..|log| - 1], k) + (if log[|log| - 1].0 == k then log[|log| - 1].1 else [])
  }

  /// The streams after the calls in `log`.
  function Grown(streams: seq<seq<byte>>, log: seq<(nat, seq<byte>)>): (grown: seq<seq<byte>>)
    ensures |grown| == |streams|
  {
    if log == [] then streams
    else
      var before, (k, bytes) := Grown(streams, log[..|log| - 1]), log[|log| - 1];
      if k < |streams| then before[k := before[k] + bytes] else before
  }

  lemma {:induction false} GrownAt(streams: seq<seq<byte>>, log: seq<(nat, seq<byte>)>, k: nat)
    requires k < |streams|
    ensures Grown(streams, log)[k] == streams[k] + Collected(log, k)
  {
    if log == [] {
      assert streams[k] + [] == streams[k];
    } else {
      var n := |log| - 1;
      GrownAt(streams, log[..n], k);
      Reassociate(streams[k], Collected(log[..n], k), if log[n].0 == k then log[n].1 else []);
    }
  }

  /// Any calls on any sockets: what each socket has sent, buffered and corked is, in order, what
  /// its own calls accepted - nothing lost, repeated, reordered or mixed up.
  method Serve(loop: LoopData, sockets: seq<AsyncSocket>, calls: seq<(nat, Call)>) returns (log: seq<(nat, seq<byte>)>)
    requires AllValid(loop, sockets) && forall c <- calls :: c.0 < |sockets|
    modifies loop, loop.corkBuffer, sockets, set s <- sockets :: s.backPressure
    ensures |log| <= |calls| && forall i | 0 <= i < |log| :: log[i].0 == calls[i].0 && Reported(calls[i].1, log[i].1)
    ensures |log| < |calls| ==>
              calls[|log|].1.CallCork? && loop.corkOffset > 0 && loop.corkedSocket != sockets[calls[|log|].0]
    ensures AllValid(loop, sockets)
    ensures StreamsOf(loop, sockets) == Grown(old(StreamsOf(loop, sockets)), log)
  {
    hide AllValid, StreamsOf, Reported;
    log := [];
    ghost var start := StreamsOf(loop, sockets);
    var i := 0;
    while i < |calls|
      invariant 0 <= i == |log| <= |calls| && AllValid(loop, sockets)
      invariant forall j | 0 <= j < |log| :: log[j].0 == calls[j].0 && Reported(calls[j].1, log[j].1)
      invariant StreamsOf(loop, sockets) == Grown(start, log)
    {
      var (k, call) := calls[i];
      assert calls[i] in calls;
      if call.CallCork? && loop.corkOffset > 0 && loop.corkedSocket != sockets[k] { break; }   // std::terminate
      var accepted, _ := Perform(loop, sockets, k, call);
      assert (log + [(k, accepted)])[..|log|] == log;
      log := log + [(k, accepted)];
      i := i + 1;
    }
  }
}
