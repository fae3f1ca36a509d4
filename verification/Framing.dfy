/** Messages between the two proxies over a byte stream (daemon/conn.c:10-72, 276-315).
    Every send and receive call moves some non-empty part of what is asked, or fails. */
module Framing {
  import opened Bytes

  /** struct netdev_header: type, padding, size, and a pointer that means nothing to the
      other side. */
  const HEADER_SIZE: nat := 24

  datatype Packet = Packet(msgtype: int32, payload: seq<byte>)

  /** A packet with the padding and the pointer its header happens to hold. */
  datatype Sent = Sent(packet: Packet, pad: seq<byte>, pointer: seq<byte>)

  predicate Sendable(w: Sent) {
    |w.pad| == 4 && |w.pointer| == 8 && |w.packet.payload| < TWO_TO_THE_63
  }

  function HeaderOf(w: Sent): (bs: seq<byte>)
    requires Sendable(w)
    ensures |bs| == HEADER_SIZE
  {
    IntBytes(w.packet.msgtype) + w.pad + SizeBytes(|w.packet.payload|) + w.pointer
  }

  function Frame(w: Sent): (bs: seq<byte>)
    requires Sendable(w)
    ensures |bs| == HEADER_SIZE + |w.packet.payload|
  {
    HeaderOf(w) + w.packet.payload
  }

  function TypeOf(header: seq<byte>): int32
    requires |header| == HEADER_SIZE
  {
    ReadInt(header[0..4])
  }

  function SizeOf(header: seq<byte>): uint64
    requires |header| == HEADER_SIZE
  {
    ReadSize(header[8..16])
  }

  lemma HeaderRead(w: Sent)
    requires Sendable(w)
    ensures TypeOf(HeaderOf(w)) == w.packet.msgtype
    ensures SizeOf(HeaderOf(w)) == |w.packet.payload|
  {
    IntRoundTrip(w.packet.msgtype);
    SizeRoundTrip(|w.packet.payload|);
    assert HeaderOf(w)[0..4] == IntBytes(w.packet.msgtype);
    assert HeaderOf(w)[8..16] == SizeBytes(|w.packet.payload|);
  }

  // ----- Streams of packets

  predicate AllSendable(ws: seq<Sent>) {
    forall i :: 0 <= i < |ws| ==> Sendable(ws[i])
  }

  /** A packet with no payload cannot be told from the end of the connection. */
  predicate NoneEmpty(ws: seq<Sent>) {
    forall i :: 0 <= i < |ws| ==> ws[i].packet.payload != []
  }

  function Stream(ws: seq<Sent>): seq<byte>
    requires AllSendable(ws)
  {
    if ws == [] then [] else Frame(ws[0]) + Stream(ws[1..])
  }

  function Packets(ws: seq<Sent>): (ps: seq<Packet>)
    ensures |ps| == |ws|
    ensures forall i :: 0 <= i < |ws| ==> ps[i] == ws[i].packet
  {
    seq(|ws|, i requires 0 <= i < |ws| => ws[i].packet)
  }

  /** What a reader of whole packets sees in a stream: the packets, and the bytes of an
      incomplete or empty one at the end. */
  function Parse(bs: seq<byte>): (r: (seq<Packet>, seq<byte>))
    decreases |bs|
  {
    if |bs| < HEADER_SIZE then ([], bs)
    else
      var n := SizeOf(bs[..HEADER_SIZE]);
      if n == 0 || |bs| < HEADER_SIZE + n then ([], bs)
      else
        var rest := Parse(bs[HEADER_SIZE + n..]);
        ([Packet(TypeOf(bs[..HEADER_SIZE]), bs[HEADER_SIZE..HEADER_SIZE + n])] + rest.0, rest.1)
  }

  /** Framing is unambiguous: reading packets off the stream gives what was sent, in
      order, whatever the padding and pointers were, and with nothing left over. */
  lemma {:induction false} ParseOfStream(ws: seq<Sent>)
    requires AllSendable(ws) && NoneEmpty(ws)
    ensures Parse(Stream(ws)) == (Packets(ws), [])
  {
    if ws == [] {
    } else {
      var w := ws[0];
      var bs := Stream(ws);
      HeaderRead(w);
      assert bs[..HEADER_SIZE] == HeaderOf(w);
      assert bs[HEADER_SIZE..HEADER_SIZE + |w.packet.payload|] == w.packet.payload;
      assert bs[HEADER_SIZE + |w.packet.payload|..] == Stream(ws[1..]);
      ParseOfStream(ws[1..]);
      assert Packets(ws) == [w.packet] + Packets(ws[1..]);
    }
  }

  /** Reading goes on where it stopped: bytes that come later change nothing of what was read
      before. */
  lemma {:induction false} ParseIncremental(a: seq<byte>, b: seq<byte>)
    ensures var (ps, rest) := Parse(a);
            Parse(a + b) == (ps + Parse(rest + b).0, Parse(rest + b).1)
    decreases |a|
  {
    var later := Parse(Parse(a).1 + b).0;
    assert [] + later == later;
    if |a| >= HEADER_SIZE {
      var n := SizeOf(a[..HEADER_SIZE]);
      assert (a + b)[..HEADER_SIZE] == a[..HEADER_SIZE];
      if n != 0 && |a| >= HEADER_SIZE + n {
        assert (a + b)[HEADER_SIZE..HEADER_SIZE + n] == a[HEADER_SIZE..HEADER_SIZE + n];
        assert (a + b)[HEADER_SIZE + n..] == a[HEADER_SIZE + n..] + b;
        var p := [Packet(TypeOf(a[..HEADER_SIZE]), a[HEADER_SIZE..HEADER_SIZE + n])];
        ParseIncremental(a[HEADER_SIZE + n..], b);
        assert p + (Parse(a[HEADER_SIZE + n..]).0 + later) == p + Parse(a[HEADER_SIZE + n..]).0 + later;
      }
    }
  }

  /** However sends and receives interleave: the packets in the bytes that have arrived are
      the first ones sent, and those in the rest are the others. */
  lemma ArrivedIsInOrder(ws: seq<Sent>, arrived: seq<byte>, coming: seq<byte>)
    requires AllSendable(ws) && NoneEmpty(ws) && Stream(ws) == arrived + coming
    ensures var (ps, rest) := Parse(arrived);
            Packets(ws) == ps + Parse(rest + coming).0 && Parse(rest + coming).1 == []
  {
    ParseOfStream(ws);
    ParseIncremental(arrived, coming);
  }

  lemma {:induction false} StreamAppend(ws: seq<Sent>, w: Sent)
    requires AllSendable(ws) && Sendable(w)
    ensures AllSendable(ws + [w])
    ensures Stream(ws + [w]) == Stream(ws) + Frame(w)
  {
    if ws == [] {
      assert (ws + [w])[1..] == [];
      assert Stream(ws + [w]) == Frame(w) + [];
    } else {
      StreamAppend(ws[1..], w);
      assert (ws + [w])[1..] == ws[1..] + [w];
      assert Stream(ws + [w]) == Frame(ws[0]) + (Stream(ws[1..]) + Frame(w));
    }
  }

  // ----- The loops

  /** The calls of sendmsg or recvmsg so far: the bytes each was asked to move, and those it
      moved, which are none if it failed. */
  datatype Calls = NoCalls | After(before: Calls, asked: nat, moved: nat)

  function Moved(calls: Calls): nat {
    match calls
    case NoCalls => 0
    case After(before, _, moved) => Moved(before) + moved
  }

  /** What the next call is asked for when `moved` of `size` bytes are moved: all of them at
      first; then what is left, or as it is written what was moved so far. */
  function NextLength(exact: bool, size: nat, moved: nat): nat
    requires moved <= size
  {
    if moved == 0 || exact then size - moved else moved
  }

  /** The last call did not fail. */
  predicate GoesOn(calls: Calls) {
    calls.After? ==> calls.moved > 0
  }

  /** The calls of a loop: each is made after one that moved something, while bytes are
      missing, and is asked for the next length. */
  ghost predicate IsLoop(exact: bool, size: nat, calls: Calls) {
    match calls
    case NoCalls => true
    case After(before, asked, moved) =>
      && IsLoop(exact, size, before) && GoesOn(before)
      && (Moved(before) < size || Moved(before) == size == 0)
      && asked == NextLength(exact, size, Moved(before)) && moved <= asked
  }

  ghost predicate Going(exact: bool, size: nat, calls: Calls, moved: nat) {
    IsLoop(exact, size, calls) && Moved(calls) == moved && GoesOn(calls)
  }

  lemma NextCall(exact: bool, size: nat, calls: Calls, moved: nat, len: nat, n: int) returns (next: Calls)
    requires Going(exact, size, calls, moved) && (moved < size || moved == size == 0)
    requires len == NextLength(exact, size, moved) && n <= len
    ensures IsLoop(exact, size, next) && Moved(next) == moved + Max(n, 0) && next.After?
    ensures GoesOn(next) <==> n > 0
    ensures n > 0 ==> Going(exact, size, next, moved + n)
  {
    next := After(calls, len, Max(n, 0));
  }

  /** One direction of the connection. `bytes` is what is on its way; `broken` is set by
      a call that fails. `sent` is the history of whole packets, and `taken` the number of
      those that were read whole. */
  class Connection {
    var bytes: seq<byte>
    var broken: bool
    ghost var sent: seq<Sent>
    ghost var taken: nat

    constructor ()
      ensures Valid() && !broken && sent == [] && taken == 0 && bytes == []
    {
      bytes, broken := [], false;
      sent, taken := [], 0;
    }

    /** While no call has failed, the bytes on the way are the packets not yet taken. */
    ghost predicate Valid()
      reads this
    {
      !broken ==> AllSendable(sent) && taken <= |sent| && bytes == Stream(sent[taken..])
    }

    method SendMsg(chunk: seq<byte>) returns (n: int)
      modifies this`bytes, this`broken
      ensures -1 <= n <= |chunk|
      ensures n <= 0 ==> bytes == old(bytes)
      ensures n > 0 ==> bytes == old(bytes) + chunk[..n]
      ensures broken == (old(broken) || (n <= 0 && chunk != []))
    {
      n :| -1 <= n <= |chunk|;
      if n > 0 {
        bytes := bytes + chunk[..n];
      } else if chunk != [] {
        broken := true;
      }
    }

    /** Receives up to `len` bytes; 0 is the end of the stream, or nothing asked. */
    method RecvMsg(len: nat) returns (n: int, got: seq<byte>)
      modifies this`bytes, this`broken
      ensures -1 <= n <= len
      ensures old(bytes) == got + bytes && |got| == Max(n, 0)
      ensures len == 0 ==> n <= 0
      ensures broken == (old(broken) || (n <= 0 && len > 0 && old(bytes) != []))
    {
      got := [];
      if len == 0 || bytes == [] {
        n :| -1 <= n <= 0;
        return;
      }
      n :| -1 <= n <= len && n <= |bytes|;
      if n > 0 {
        got := bytes[..n];
        bytes := bytes[n..];
      } else {
        broken := true;
      }
    }

    /** sendall. `memory` begins with the `size` bytes of the buffer. As it is written
        (`exact` false) the length of the next call is what was sent so far, so that the
        last call can run past the buffer; meant is what is left of it. */
    method SendAll(exact: bool, memory: seq<byte>, size: nat)
      returns (r: int, ghost total: nat, ghost calls: Calls)
      requires 0 < size && 2 * size <= |memory|
      modifies this`bytes, this`broken
      ensures r == 0 || r == -1
      ensures total <= |memory| && bytes == old(bytes) + memory[..total]
      ensures IsLoop(exact, size, calls) && total == Moved(calls)
      ensures calls.After? && (r == -1 <==> !GoesOn(calls))
      ensures r == 0 ==> size <= total <= (if exact then size else Max(size, 2 * size - 2))
      ensures r == -1 ==> total < size && broken
      ensures r == 0 ==> broken == old(broken)
    {
      var sent, len := 0, size;
      total, calls := 0, NoCalls;
      assert memory[..0] == [];
      while true
        invariant total == sent < size
        invariant Going(exact, size, calls, sent)
        invariant len == if sent == 0 || exact then size - sent else sent
        invariant bytes == old(bytes) + memory[..sent] && broken == old(broken)
        decreases size - sent
      {
        var n := SendMsg(memory[sent..sent + len]);
        calls := NextCall(exact, size, calls, sent, len, n);
        if n <= 0 {
          return -1, total, calls;
        }
        NextChunk(memory, sent, len, n);
        sent := sent + n;
        total := sent;
        len := if exact then size - sent else sent;
        if sent >= size {
          return 0, total, calls;
        }
      }
    }

    /** recvall, with the same two ways to set the length of the next call. */
    method RecvAll(exact: bool, size: nat) returns (r: int, got: seq<byte>, ghost calls: Calls)
      modifies this`bytes, this`broken
      ensures r == -1 || size <= r <= (if exact then size else Max(size, 2 * size - 2))
      ensures old(bytes) == got + bytes
      ensures IsLoop(exact, size, calls) && |got| == Moved(calls)
      ensures calls.After? && (r == -1 <==> !GoesOn(calls))
      ensures r != -1 ==> r == |got| && broken == old(broken)
      ensures r == -1 ==> |got| < size || size == 0
      ensures r == -1 && 0 < size <= |old(bytes)| ==> broken
      ensures old(broken) ==> broken
      ensures size == 0 ==> r == -1 && got == [] && broken == old(broken)
    {
      var count, len := 0, size;
      got, calls := [], NoCalls;
      ghost var all := bytes;
      while true
        invariant Going(exact, size, calls, count)
        invariant count == |got| && (count < size || size == 0)
        invariant size == 0 ==> count == 0
        invariant len == if count == 0 || exact then size - count else count
        invariant all == got + bytes && broken == old(broken)
        decreases size - count
      {
        var n, chunk := RecvMsg(len);
        calls := NextCall(exact, size, calls, count, len, n);
        if n <= 0 {
          return -1, got, calls;
        }
        assert got + (chunk + bytes) == (got + chunk) + bytes;
        got := got + chunk;
        count := count + n;
        len := if exact then size - count else count;
        if count >= size {
          return count, got, calls;
        }
      }
    }

    /** recvall with the corrected length: that many bytes, or -1. */
    method RecvExactly(size: nat) returns (r: int, got: seq<byte>)
      modifies this`bytes, this`broken
      ensures old(bytes) == got + bytes && (r == -1 || r == |got| == size)
      ensures r != -1 ==> broken == old(broken)
      ensures r == -1 && 0 < size <= |old(bytes)| ==> broken
      ensures old(broken) ==> broken
      ensures size == 0 ==> r == -1 && got == [] && broken == old(broken)
    {
      ghost var calls;
      r, got, calls := RecvAll(true, size);
    }

    /** conn_send: header and payload in one buffer, sent whole or not at all. */
    method ConnSend(w: Sent) returns (r: int)
      requires Valid() && Sendable(w)
      modifies this
      ensures Valid()
      ensures r == 0 || r == -1
      ensures r == 0 ==> broken == old(broken) && sent == old(sent) + [w] && bytes == old(bytes) + Frame(w)
      ensures r == -1 ==> broken && sent == old(sent) && bytes < old(bytes) + Frame(w)
      ensures taken == old(taken)
    {
      var buff := HeaderOf(w) + w.packet.payload;
      ghost var total, calls;
      r, total, calls := SendAll(true, buff + buff, |buff|);
      assert (buff + buff)[..total] == buff[..total];
      if r == 0 {
        assert buff[..|buff|] == buff;
        if !broken {
          StreamAppend(sent[taken..], w);
          assert (sent + [w])[taken..] == sent[taken..] + [w];
        }
        sent := sent + [w];
      }
    }

    /** conn_recv: the header, then as many bytes as it announces. A packet that announces
        none is taken for the end of the connection, but its header is gone. */
    method ConnRecv() returns (p: Option<Packet>)
      requires Valid()
      modifies this
      ensures !broken ==> Valid()
      ensures sent == old(sent)
      ensures !old(broken) && p.Some? ==> old(taken) < |sent| && p.value == sent[old(taken)].packet
      ensures !broken && old(taken) == |sent| ==> p == None && taken == old(taken)
      ensures !broken && old(taken) < |sent| ==>
                var packet := sent[old(taken)].packet;
                taken == old(taken) + 1 && p == if packet.payload == [] then None else Some(packet)
    {
      ghost var ws, at, all, fine := sent, taken, bytes, !broken;
      if fine {
        SomethingOrNothing(ws, at);
      }
      var r, header := RecvExactly(HEADER_SIZE);
      if r == -1 {
        return None;
      }
      ghost var rest := bytes;
      if fine {
        HeaderOfNext(ws, at, header, rest);
      }
      var size := SizeOf(header);
      var payload;
      r, payload := RecvExactly(size);
      taken := at + 1;
      if fine && |payload| == size {
        RestOfNext(ws, at, header, payload, bytes);
      }
      if r == -1 {
        return None;
      }
      p := Some(Packet(TypeOf(header), payload));
    }
  }

  lemma SomethingOrNothing(sent: seq<Sent>, taken: nat)
    requires AllSendable(sent) && taken <= |sent|
    ensures if taken == |sent| then Stream(sent[taken..]) == [] else |Stream(sent[taken..])| >= HEADER_SIZE
  {
  }

  /** The header that is read is that of the first packet not taken, whose payload follows. */
  lemma HeaderOfNext(sent: seq<Sent>, taken: nat, header: seq<byte>, rest: seq<byte>)
    requires AllSendable(sent) && taken <= |sent| && header + rest == Stream(sent[taken..])
    requires |header| == HEADER_SIZE
    ensures taken < |sent|
    ensures var packet := sent[taken].packet;
            TypeOf(header) == packet.msgtype && SizeOf(header) == |packet.payload| <= |rest|
    ensures rest == sent[taken].packet.payload + Stream(sent[taken + 1..])
  {
    SomethingOrNothing(sent, taken);
    var w, all := sent[taken], header + rest;
    assert sent[taken..][1..] == sent[taken + 1..];
    HeaderRead(w);
    HeaderAndRest(HeaderOf(w), w.packet.payload, Stream(sent[taken + 1..]));
    assert header == all[..HEADER_SIZE] && rest == all[HEADER_SIZE..];
  }

  lemma HeaderAndRest(header: seq<byte>, payload: seq<byte>, rest: seq<byte>)
    requires |header| == HEADER_SIZE
    ensures ((header + payload) + rest)[..HEADER_SIZE] == header
    ensures ((header + payload) + rest)[HEADER_SIZE..] == payload + rest
  {
  }

  /** And when as many bytes as it announces are read they are the payload. */
  lemma RestOfNext(sent: seq<Sent>, taken: nat, header: seq<byte>, payload: seq<byte>, rest: seq<byte>)
    requires AllSendable(sent) && taken <= |sent| && header + (payload + rest) == Stream(sent[taken..])
    requires |header| == HEADER_SIZE && |payload| == SizeOf(header)
    ensures taken < |sent| && rest == Stream(sent[taken + 1..])
    ensures Packet(TypeOf(header), payload) == sent[taken].packet
  {
    HeaderOfNext(sent, taken, header, payload + rest);
    assert payload == (payload + rest)[..|payload|] && rest == (payload + rest)[|payload|..];
  }

  lemma NextChunk(memory: seq<byte>, at: nat, len: nat, n: nat)
    requires n <= len && at + len <= |memory|
    ensures memory[..at] + memory[at..at + len][..n] == memory[..at + n]
  {
  }

  // ----- When the loop as it is written is right

  /** The number of bytes moved by the loop as written when the calls move `steps` bytes;
      None if that is not a possible sequence of calls. */
  function LiteralTotal(size: nat, moved: nat, steps: seq<nat>): Option<nat>
    decreases |steps|
  {
    var len := if moved == 0 then size else moved;
    if moved >= size && moved > 0 then (if steps == [] then Some(moved) else None)
    else if steps == [] || steps[0] == 0 || steps[0] > len then None
    else LiteralTotal(size, moved + steps[0], steps[1..])
  }

  function Steps(calls: Calls): seq<nat> {
    match calls
    case NoCalls => []
    case After(before, _, moved) => Steps(before) + [moved]
  }

  /** `LiteralTotal` counts the calls of a loop as written that ends with success. */
  lemma {:induction false} LoopIsLiteralTotal(size: nat, calls: Calls, more: seq<nat>)
    requires IsLoop(false, size, calls) && size > 0 && GoesOn(calls)
    ensures LiteralTotal(size, 0, Steps(calls) + more) == LiteralTotal(size, Moved(calls), more)
  {
    match calls
    case NoCalls => assert Steps(calls) + more == more;
    case After(before, asked, moved) =>
      LoopIsLiteralTotal(size, before, [moved] + more);
      assert Steps(calls) + more == Steps(before) + ([moved] + more);
      assert ([moved] + more)[1..] == more;
  }

  lemma LoopMovesLiteralTotal(size: nat, calls: Calls)
    requires IsLoop(false, size, calls) && 0 < size <= Moved(calls)
    ensures LiteralTotal(size, 0, Steps(calls)) == Some(Moved(calls))
  {
    LoopIsLiteralTotal(size, calls, []);
    assert Steps(calls) + [] == Steps(calls);
  }

  lemma {:induction false} LiteralBound(size: nat, moved: nat, steps: seq<nat>)
    requires 0 < size && (moved == 0 || moved < size)
    requires LiteralTotal(size, moved, steps).Some?
    ensures size <= LiteralTotal(size, moved, steps).value <= Max(size, 2 * size - 2)
    decreases |steps|
  {
    if moved + steps[0] < size {
      LiteralBound(size, moved + steps[0], steps[1..]);
    } else {
      assert LiteralTotal(size, moved + steps[0], steps[1..]) == Some(moved + steps[0]);
    }
  }

  ghost predicate ExactForAllSplits(size: nat) {
    forall steps: seq<nat> :: LiteralTotal(size, 0, steps).Some? ==> LiteralTotal(size, 0, steps).value == size
  }

  /** The loop as written moves exactly the message, however the calls split it, only for
      messages of at most two bytes; a longer one is overrun by some split. */
  lemma LiteralExactIff(size: nat)
    requires 0 < size
    ensures ExactForAllSplits(size) <==> size <= 2
  {
    if size <= 2 {
      forall steps: seq<nat> | LiteralTotal(size, 0, steps).Some?
        ensures LiteralTotal(size, 0, steps).value == size
      {
        LiteralBound(size, 0, steps);
      }
    } else {
      var steps: seq<nat> := [size - 1, size - 1];
      assert steps[1..] == [size - 1] && steps[1..][1..] == [];
      assert LiteralTotal(size, 2 * size - 2, []) == Some(2 * size - 2);
      assert LiteralTotal(size, size - 1, steps[1..]) == Some(2 * size - 2);
      assert LiteralTotal(size, 0, steps) == Some(2 * size - 2);
      assert !ExactForAllSplits(size);
    }
  }
}
