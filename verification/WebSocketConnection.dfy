/** `StdlibWebSocketConnection`: reading and writing frames over a socket that may split the bytes anywhere. */
module WebSocketConnection {
  import opened Collections
  import opened WebSocketFrames

  /** What one `recv` does: it delivers some of the bytes still to come, or times out. */
  datatype Arrival = Delivers(size: nat) | TimesOut

  /** Every delivery is a single byte. */
  ghost predicate Bytewise(arrivals: nat -> Arrival) {
    forall n :: arrivals(n).Delivers? ==> arrivals(n).size == 0
  }

  /** How many of the calls from `from` up to `to` time out. */
  function TimeOuts(arrivals: nat -> Arrival, from: nat, to: nat): nat
    decreases to - from
  {
    if to <= from then 0 else TimeOuts(arrivals, from, to - 1) + if arrivals(to - 1).TimesOut? then 1 else 0
  }

  /** The calls from `from` up to `to` all delivered, and together took `consumed` bytes off the stream. */
  ghost predicate Delivered(arrivals: nat -> Arrival, from: nat, to: nat, consumed: int) {
    && from <= to && TimeOuts(arrivals, from, to) == 0
    && (consumed > 0 <==> to > from) && consumed >= 0
    && (Bytewise(arrivals) ==> consumed == to - from)
  }

  /** The same, except that the last call timed out if `timedOut` says so. */
  ghost predicate Trace(arrivals: nat -> Arrival, from: nat, to: nat, consumed: int, timedOut: bool) {
    if timedOut then to > 0 && arrivals(to - 1).TimesOut? && Delivered(arrivals, from, to - 1, consumed)
    else Delivered(arrivals, from, to, consumed)
  }

  lemma {:induction false} TimeOutsAdd(arrivals: nat -> Arrival, from: nat, mid: nat, to: nat)
    requires from <= mid <= to
    ensures TimeOuts(arrivals, from, to) == TimeOuts(arrivals, from, mid) + TimeOuts(arrivals, mid, to)
  {
    if mid < to { TimeOutsAdd(arrivals, from, mid, to - 1); }
  }

  /** One more call that takes some bytes, and just one if it delivers byte by byte. */
  lemma DeliveredOneMore(arrivals: nat -> Arrival, from: nat, to: nat, consumed: int, n: int)
    requires Delivered(arrivals, from, to, consumed) && arrivals(to).Delivers? && n >= 1
    requires arrivals(to).size == 0 ==> n == 1
    ensures Delivered(arrivals, from, to + 1, consumed + n)
  {
  }

  lemma ChunkSize(size: nat, most: nat)
    requires most > 0
    ensures 1 <= 1 + size % most <= most && (size == 0 ==> 1 + size % most == 1)
  {
  }

  lemma NoneTimesOut(arrivals: nat -> Arrival, from: nat, to: nat, n: nat)
    requires TimeOuts(arrivals, from, to) == 0 && from <= n < to
    ensures arrivals(n).Delivers?
  {
    TimeOutsAdd(arrivals, from, n, to);
    TimeOutsAdd(arrivals, n, n + 1, to);
  }

  /** A read that timed out took nothing exactly if its first call is the one that timed out. */
  lemma TimedOutAtOnce(arrivals: nat -> Arrival, from: nat, to: nat, consumed: int)
    requires Trace(arrivals, from, to, consumed, true)
    ensures consumed == 0 <==> arrivals(from).TimesOut?
  {
    if consumed > 0 { NoneTimesOut(arrivals, from, to - 1, from); }
  }

  /** Where a read began: the bytes then still to come, and the number of calls made before it. */
  datatype ReadStart = ReadStart(inbox: seq<bv8>, calls: nat)

  class Socket {
    /** Bytes still to come, bytes sent so far, and the number of `recv` calls. */
    var inbox: seq<bv8>
    var outbox: seq<bv8>
    var recvCalls: nat
    const arrivals: nat -> Arrival

    constructor (inbox: seq<bv8>, arrivals: nat -> Arrival)
      ensures this.inbox == inbox && outbox == [] && recvCalls == 0 && this.arrivals == arrivals
    {
      this.inbox, this.arrivals, outbox, recvCalls := inbox, arrivals, [], 0;
    }

    /** It times out exactly as scripted; nothing is delivered exactly at the end of the stream. */
    method Recv(limit: nat, ghost start: ReadStart) returns (r: Result<seq<bv8>, ReadError>)
      requires limit > 0 && Traced(start, false)
      modifies this`inbox, this`recvCalls
      ensures recvCalls == old(recvCalls) + 1
      ensures r.Err? <==> arrivals(old(recvCalls)).TimesOut?
      ensures r.Err? ==> r.error.TimedOut? && inbox == old(inbox)
      ensures r.Ok? ==> old(inbox) == r.value + inbox && |r.value| <= limit && (r.value == [] <==> old(inbox) == [])
      ensures r != Ok([]) ==> Traced(start, r.Err?)
    {
      recvCalls := recvCalls + 1;
      match arrivals(recvCalls - 1)
      case TimesOut => r := Err(TimedOut);
      case Delivers(size) =>
        if inbox == [] { return Ok([]); }
        var most := if limit < |inbox| then limit else |inbox|;
        var n := 1 + size % most;
        ChunkSize(size, most);
        DeliveredOneMore(arrivals, start.calls, recvCalls - 1, |start.inbox| - |inbox|, n);
        r := Ok(inbox[..n]);
        inbox := inbox[n..];
    }

    /** What happened to the stream since the read began. */
    ghost predicate Traced(start: ReadStart, timedOut: bool)
      reads this
    {
      Trace(arrivals, start.calls, recvCalls, |start.inbox| - |inbox|, timedOut)
    }
  }

  ghost predicate IsSuffix(b: seq<bv8>, whole: seq<bv8>) {
    |b| <= |whole| && b == whole[|whole| - |b|..]
  }

  /** The pong that answers the n-th payload, under the n-th fresh mask from `first` on. */
  function PongFor(payloads: seq<seq<bv8>>, entropy: nat -> Mask, first: nat, n: nat): seq<bv8>
    requires n < |payloads|
  {
    Encoded(Frame(PONG, payloads[n]), Some(entropy(first + n)))
  }

  function EachPong(payloads: seq<seq<bv8>>, entropy: nat -> Mask, first: nat): seq<seq<bv8>> {
    seq(|payloads|, n requires 0 <= n < |payloads| => PongFor(payloads, entropy, first, n))
  }

  /** The bytes of one pong per payload. */
  function PongBytes(payloads: seq<seq<bv8>>, entropy: nat -> Mask, first: nat): seq<bv8> {
    Flat(EachPong(payloads, entropy, first))
  }

  lemma PongBytesJoin(a: seq<seq<bv8>>, b: seq<seq<bv8>>, entropy: nat -> Mask, first: nat)
    ensures PongBytes(a + b, entropy, first) == PongBytes(a, entropy, first) + PongBytes(b, entropy, first + |a|)
  {
    assert EachPong(a + b, entropy, first) == EachPong(a, entropy, first) + EachPong(b, entropy, first + |a|);
    FlatConcat(EachPong(a, entropy, first), EachPong(b, entropy, first + |a|));
  }

  lemma OneMorePong(payloads: seq<seq<bv8>>, payload: seq<bv8>, entropy: nat -> Mask, first: nat)
    ensures PongBytes(payloads + [payload], entropy, first)
         == PongBytes(payloads, entropy, first) + Encoded(Frame(PONG, payload), Some(entropy(first + |payloads|)))
  {
    PongBytesJoin(payloads, [payload], entropy, first);
    var last := EachPong([payload], entropy, first + |payloads|);
    assert last[1..] == [] && Flat(last) == last[0] + Flat(last[1..]);
  }

  function Pongs(payloads: seq<seq<bv8>>): (r: seq<Frame>)
    ensures |r| == |payloads|
  {
    seq(|payloads|, n requires 0 <= n < |payloads| => Frame(PONG, payloads[n]))
  }

  function MasksFrom(entropy: nat -> Mask, first: nat, n: nat): (r: seq<Option<Mask>>)
    ensures |r| == n
  {
    seq(n, i requires 0 <= i < n => Some(entropy(first + i)))
  }

  /** The peer reads the pongs back: same payloads, same order. */
  lemma PongsAreReadable(payloads: seq<seq<bv8>>, entropy: nat -> Mask, first: nat)
    requires forall p :: p in payloads ==> |p| < MAX_PAYLOAD
    ensures ParseFrames(PongBytes(payloads, entropy, first), |payloads|) == Some((Pongs(payloads), []))
  {
    var frames, masks := Pongs(payloads), MasksFrom(entropy, first, |payloads|);
    forall f | f in frames ensures Sendable(f) {
      var i :| 0 <= i < |payloads| && f == frames[i];
      assert payloads[i] in payloads;
    }
    FramesRoundTrip(frames, masks, []);
    SamePongs(payloads, entropy, first);
    assert EncodedAll(frames, masks) + [] == EncodedAll(frames, masks);
  }

  lemma SamePongs(payloads: seq<seq<bv8>>, entropy: nat -> Mask, first: nat)
    ensures PongBytes(payloads, entropy, first) == EncodedAll(Pongs(payloads), MasksFrom(entropy, first, |payloads|))
  {
    assert EachPong(payloads, entropy, first) == EncodedEach(Pongs(payloads), MasksFrom(entropy, first, |payloads|));
    EncodedAllIsFlat(Pongs(payloads), MasksFrom(entropy, first, |payloads|));
  }

  lemma EncodedMasked(opcode: bv8, payload: seq<bv8>, mask: Mask)
    requires |payload| < MAX_PAYLOAD
    ensures Encoded(Frame(opcode, payload), Some(mask))
         == [0x80 | (opcode & 0x0F)] + LengthField(|payload|, 0x80) + mask + Masked(payload, mask)
  {
  }

  lemma Joined(first: bv8, field: seq<bv8>, mask: seq<bv8>, body: seq<bv8>, rest: seq<bv8>)
    requires Announced(field, mask, body)
    ensures ParseFrame([first] + field + (mask + body + rest))
      == Some((Frame(first & 0x0F, Unmasked(body, mask)), rest))
  {
    ParseParts(first, field, mask, body, rest);
    Regrouped([first] + field, mask, body, rest);
  }

  lemma Regrouped<T>(a: seq<T>, b: seq<T>, c: seq<T>, d: seq<T>)
    ensures a + (b + c + d) == a + b + c + d
  {
  }

  lemma BoundaryAfterTimeOut(whole: seq<bv8>, b: seq<bv8>, rest: seq<bv8>)
    requires Boundary(whole, b) && IsSuffix(rest, b) && WithinFirst(b, rest)
    ensures Boundary(whole, rest) ==> rest == b
  {
    if |rest| < |b| { NoBoundaryInside(whole, b, rest); }
  }

  lemma HeaderJoined(head: seq<bv8>, extension: seq<bv8>, rest: seq<bv8>)
    requires |head| == 2
    ensures head + (extension + rest) == [head[0]] + ([head[1]] + extension) + rest
  {
    assert head == [head[0]] + [head[1]];
  }

  lemma SuffixBehind(head: seq<bv8>, mid: seq<bv8>, rest: seq<bv8>)
    requires IsSuffix(rest, mid)
    ensures IsSuffix(rest, head + mid)
  {
  }

  /** The parts of a frame in the order in which they stand on the wire. */
  datatype FrameParts = FrameParts(first: bv8, field: seq<bv8>, mask: seq<bv8>, body: seq<bv8>)
  {
    ghost predicate Begin(b: seq<bv8>, rest: seq<bv8>) {
      Announced(field, mask, body) && b == [first] + field + (mask + body + rest)
    }
  }

  class Connection {
    const socket: Socket
    const entropy: nat -> Mask
    var masksDrawn: nat

    constructor (socket: Socket, entropy: nat -> Mask)
      ensures this.socket == socket && this.entropy == entropy && masksDrawn == 0
    {
      this.socket, this.entropy, masksDrawn := socket, entropy, 0;
    }

    /** `_read_exact`: all the bytes or an error, however they arrive; a time-out drops what it already has. */
    method ReadExact(size: nat, ghost start: ReadStart) returns (r: Result<seq<bv8>, ReadError>)
      requires socket.Traced(start, false)
      modifies socket`inbox, socket`recvCalls
      ensures r.Ok? ==> |r.value| == size && old(socket.inbox) == r.value + socket.inbox
      ensures r == Err(EndOfStream) ==> |old(socket.inbox)| < size && socket.inbox == []
      ensures r == Err(TimedOut) ==> |old(socket.inbox)| - |socket.inbox| < size
      ensures r == Err(TimedOut) ==> (|socket.inbox| == |start.inbox| <==> socket.arrivals(start.calls).TimesOut?)
      ensures r.Err? ==> IsSuffix(socket.inbox, old(socket.inbox))
      ensures r != Err(EndOfStream) ==> socket.Traced(start, r.Err?)
    {
      var chunks := [];
      while |chunks| < size
        invariant |chunks| <= size && old(socket.inbox) == chunks + socket.inbox
        invariant socket.Traced(start, false)
        decreases size - |chunks|
      {
        var chunk := socket.Recv(size - |chunks|, start);
        if chunk.Err? {
          TimedOutAtOnce(socket.arrivals, start.calls, socket.recvCalls, |start.inbox| - |socket.inbox|);
          return Err(TimedOut);
        }
        if chunk.value == [] { return Err(EndOfStream); }
        chunks := chunks + chunk.value;
      }
      r := Ok(chunks);
    }

    /** The 2, 8 or 0 bytes of extended payload length. */
    method ReadExtension(second: bv8, ghost start: ReadStart) returns (r: Result<seq<bv8>, ReadError>)
      requires socket.Traced(start, false)
      modifies socket`inbox, socket`recvCalls
      ensures r.Ok? ==> |r.value| == ExtensionSize(second) && old(socket.inbox) == r.value + socket.inbox
      ensures r == Err(EndOfStream) ==> |old(socket.inbox)| < ExtensionSize(second) && socket.inbox == []
      ensures r == Err(TimedOut) ==> |old(socket.inbox)| - |socket.inbox| < ExtensionSize(second)
      ensures r.Err? ==> IsSuffix(socket.inbox, old(socket.inbox))
      ensures r != Err(EndOfStream) ==> socket.Traced(start, r.Err?)
    {
      var length := second & 0x7F;
      if length != 126 && length != 127 { return Ok([]); }
      r := ReadExact(if length == 126 then 2 else 8, start);
    }

    /** The first byte and the length field of a frame. */
    method ReadHeader(ghost start: ReadStart) returns (r: Result<(bv8, seq<bv8>), ReadError>)
      requires socket.Traced(start, false)
      modifies socket`inbox, socket`recvCalls
      ensures r.Ok? ==>
        && |r.value.1| >= 1 && |r.value.1| == 1 + ExtensionSize(r.value.1[0])
        && old(socket.inbox) == [r.value.0] + r.value.1 + socket.inbox
      ensures r == Err(EndOfStream) ==> |old(socket.inbox)| < NeededForHeader(old(socket.inbox)) && socket.inbox == []
      ensures r == Err(TimedOut) ==> |old(socket.inbox)| - |socket.inbox| < NeededForHeader(old(socket.inbox))
      ensures r.Err? ==> IsSuffix(socket.inbox, old(socket.inbox))
      ensures r != Err(EndOfStream) ==> socket.Traced(start, r.Err?)
    {
      var head := ReadExact(2, start);
      if head.Err? { return Err(head.error); }
      var first, second := head.value[0], head.value[1];
      ghost var tail := socket.inbox;
      var extension := ReadExtension(second, start);
      if extension.Err? {
        SuffixBehind(head.value, tail, socket.inbox);
        return Err(extension.error);
      }
      HeaderJoined(head.value, extension.value, socket.inbox);
      r := Ok((first, [second] + extension.value));
    }

    method ReadMask(second: bv8, ghost start: ReadStart) returns (r: Result<seq<bv8>, ReadError>)
      requires socket.Traced(start, false)
      modifies socket`inbox, socket`recvCalls
      ensures r.Ok? ==> |r.value| == MaskSize(second) && old(socket.inbox) == r.value + socket.inbox
      ensures r == Err(EndOfStream) ==> |old(socket.inbox)| < MaskSize(second) && socket.inbox == []
      ensures r == Err(TimedOut) ==> |old(socket.inbox)| - |socket.inbox| < MaskSize(second)
      ensures r.Err? ==> IsSuffix(socket.inbox, old(socket.inbox))
      ensures r != Err(EndOfStream) ==> socket.Traced(start, r.Err?)
    {
      if !HasMask(second) { return Ok([]); }
      r := ReadExact(4, start);
    }

    /** The mask and payload that a length field announces. */
    method ReadBody(second: bv8, length: nat, ghost start: ReadStart)
      returns (r: Result<(seq<bv8>, seq<bv8>), ReadError>)
      requires socket.Traced(start, false)
      modifies socket`inbox, socket`recvCalls
      ensures r.Ok? ==>
        && |r.value.0| == MaskSize(second) && |r.value.1| == length
        && old(socket.inbox) == r.value.0 + r.value.1 + socket.inbox
      ensures r == Err(EndOfStream) ==> |old(socket.inbox)| < MaskSize(second) + length && socket.inbox == []
      ensures r == Err(TimedOut) ==> |old(socket.inbox)| - |socket.inbox| < MaskSize(second) + length
      ensures r.Err? ==> IsSuffix(socket.inbox, old(socket.inbox))
      ensures r != Err(EndOfStream) ==> socket.Traced(start, r.Err?)
    {
      var mask := ReadMask(second, start);
      if mask.Err? { return Err(mask.error); }
      ghost var tail := socket.inbox;
      var body := ReadExact(length, start);
      if body.Err? {
        SuffixBehind(mask.value, tail, socket.inbox);
        return Err(body.error);
      }
      assert mask.value + (body.value + socket.inbox) == mask.value + body.value + socket.inbox;
      r := Ok((mask.value, body.value));
    }

    method ReadParts(ghost start: ReadStart) returns (r: Result<FrameParts, ReadError>)
      requires socket.Traced(start, false)
      modifies socket`inbox, socket`recvCalls
      ensures r.Ok? ==> r.value.Begin(old(socket.inbox), socket.inbox)
      ensures r == Err(EndOfStream) ==> |old(socket.inbox)| < Needed(old(socket.inbox)) && socket.inbox == []
      ensures r == Err(TimedOut) ==> |old(socket.inbox)| - |socket.inbox| < Needed(old(socket.inbox))
      ensures r.Err? ==> IsSuffix(socket.inbox, old(socket.inbox))
      ensures r != Err(EndOfStream) ==> socket.Traced(start, r.Err?)
    {
      HeaderIsNeeded(socket.inbox);
      var header := ReadHeader(start);
      if header.Err? { return Err(header.error); }
      var (first, field) := header.value;
      NeededByParts(first, field, socket.inbox);
      var parts := ReadBody(field[0], PayloadLength(field[0], field[1..]), start);
      if parts.Err? { return Err(parts.error); }
      r := Ok(FrameParts(first, field, parts.value.0, parts.value.1));
    }

    /**
     * `_read_frame`: the first frame of the stream, independent of how `recv` splits the bytes. A time-out never gets
     * past the frame, and it leaves the stream intact exactly if it strikes the first call of the read.
     */
    method ReadFrame() returns (r: Result<Frame, ReadError>)
      modifies socket`inbox, socket`recvCalls
      ensures r.Ok? ==> ParseFrame(old(socket.inbox)) == Some((r.value, socket.inbox))
      ensures r == Err(EndOfStream) ==> ParseFrame(old(socket.inbox)) == None && socket.inbox == []
      ensures r == Err(TimedOut) ==>
        && WithinFirst(old(socket.inbox), socket.inbox)
        && (socket.inbox == old(socket.inbox) <==> socket.arrivals(old(socket.recvCalls)).TimesOut?)
      ensures r.Err? ==> IsSuffix(socket.inbox, old(socket.inbox))
      ensures r != Err(EndOfStream) ==> socket.Traced(ReadStart(old(socket.inbox), old(socket.recvCalls)), r.Err?)
    {
      ghost var start := ReadStart(socket.inbox, socket.recvCalls);
      var parts := ReadParts(start);
      if parts.Err? {
        NeededIsSpan(start.inbox);
        if parts.error.TimedOut? {
          TimedOutAtOnce(socket.arrivals, start.calls, socket.recvCalls, |start.inbox| - |socket.inbox|);
        }
        return Err(parts.error);
      }
      var FrameParts(first, field, mask, body) := parts.value;
      Joined(first, field, mask, body, socket.inbox);
      r := Ok(Frame(first & 0x0F, Unmasked(body, mask)));
    }

    /** `_send_frame` */
    method SendFrame(opcode: bv8, payload: seq<bv8>)
      requires |payload| < MAX_PAYLOAD
      modifies socket`outbox, this`masksDrawn
      ensures socket.outbox == old(socket.outbox) + Encoded(Frame(opcode, payload), Some(entropy(old(masksDrawn))))
      ensures masksDrawn == old(masksDrawn) + 1
    {
      var first := 0x80 | (opcode & 0x0F);
      var mask := entropy(masksDrawn);
      masksDrawn := masksDrawn + 1;
      var length := |payload|;
      var header;
      if length < 126 { header := [first, 0x80 | ByteOf(length)]; }
      else if length < 65536 { header := [first, 0x80 | 126] + BigEndian(length, 2); }
      else { header := [first, 0x80 | 127] + BigEndian(length, 8); }
      assert header == [first] + LengthField(length, 0x80);
      EncodedMasked(opcode, payload, mask);
      socket.outbox := socket.outbox + (header + mask + Masked(payload, mask));
    }

    /** These payloads, and nothing else, were answered since the given state. */
    ghost predicate Ponged(payloads: seq<seq<bv8>>, outbox: seq<bv8>, drawn: nat)
      reads this, socket
    {
      socket.outbox == outbox + PongBytes(payloads, entropy, drawn) && masksDrawn == drawn + |payloads|
    }

    /** Answers one ping. */
    method SendPong(payload: seq<bv8>, ghost pongs: seq<seq<bv8>>, ghost outbox: seq<bv8>, ghost drawn: nat)
      requires |payload| < MAX_PAYLOAD && Ponged(pongs, outbox, drawn)
      modifies socket`outbox, this`masksDrawn
      ensures Ponged(pongs + [payload], outbox, drawn)
    {
      OneMorePong(pongs, payload, entropy, drawn);
      SendFrame(PONG, payload);
    }

    /** The read that began with these bytes timed out: at the start of a frame, or inside it. */
    ghost predicate Interrupted(b: seq<bv8>)
      reads socket
    {
      IsSuffix(socket.inbox, b) && WithinFirst(b, socket.inbox) && LastTimedOut()
    }

    ghost predicate LastTimedOut()
      reads socket
    {
      socket.recvCalls > 0 && socket.arrivals(socket.recvCalls - 1).TimesOut?
    }

    /** If a frame begins where the stream stands, listening there completes what listening at `whole` would yield. */
    ghost predicate Continues(whole: seq<bv8>, pongs: seq<seq<bv8>>)
      reads socket
    {
      Boundary(whole, socket.inbox) ==> Resumed(pongs, Listen(socket.inbox)) == Listen(whole)
    }

    /** One turn of the receive loop; `None` goes on listening. */
    method HearFrame(ghost pongs: seq<seq<bv8>>, ghost outbox: seq<bv8>, ghost drawn: nat)
      returns (r: Option<Result<seq<bv8>, TextError>>, ghost answered: seq<seq<bv8>>)
      requires Ponged(pongs, outbox, drawn)
      modifies socket, this`masksDrawn
      ensures Ponged(answered, outbox, drawn)
      ensures r.None? ==>
        && ParseFrame(old(socket.inbox)).Some? && socket.inbox == ParseFrame(old(socket.inbox)).value.1
        && Resumed(pongs, Listen(old(socket.inbox))) == Resumed(answered, Listen(socket.inbox))
      ensures r.Some? ==> answered == pongs
      ensures r.Some? && r.value != Err(Broken(TimedOut)) ==>
        Resumed(pongs, Listen(old(socket.inbox))) == Heard(r.value, pongs, socket.inbox)
      ensures r == Some(Err(Broken(TimedOut))) ==> Interrupted(old(socket.inbox))
    {
      answered := pongs;
      ghost var b := socket.inbox;
      var frame := ReadFrame();
      if frame.Err? {
        if frame.error.EndOfStream? { ListenEnds(b, pongs); }
        return Some(Err(Broken(frame.error))), pongs;
      }
      ParsedIsSendable(b);
      var Frame(opcode, payload) := frame.value;
      if opcode != PING && opcode != PONG { ListenEnds(b, pongs); } else { ListenStep(b, pongs); }
      r := None;
      if opcode == TEXT { r := Some(Ok(payload)); }
      else if opcode == PING {
        SendPong(payload, pongs, outbox, drawn);
        answered := pongs + [payload];
      }
      else if opcode == CLOSE { r := Some(Err(ClosedByPeer)); }
      else if opcode != PONG { r := Some(Err(UnsupportedOpcode(opcode))); }
    }

    /**
     * `recv_text`: the first text payload after answering every ping before it, as `Listen` reads it off the bytes.
     * A time-out may stop it earlier, after some of the pongs; if it strikes between two frames, listening to the
     * remaining bytes goes on as if nothing had happened.
     */
    method RecvText() returns (r: Result<seq<bv8>, TextError>, ghost pongs: seq<seq<bv8>>)
      modifies socket, this`masksDrawn
      ensures Ponged(pongs, old(socket.outbox), old(masksDrawn))
      ensures r != Err(Broken(TimedOut)) ==> Heard(r, pongs, socket.inbox) == Listen(old(socket.inbox))
      ensures r == Err(Broken(TimedOut)) ==>
        LastTimedOut() && pongs <= Listen(old(socket.inbox)).pongs && Continues(old(socket.inbox), pongs)
    {
      ghost var whole, h := socket.inbox, Listen(socket.inbox);
      pongs := [];
      assert Resumed(pongs, h) == h;
      while true
        invariant h == Resumed(pongs, Listen(socket.inbox)) && Boundary(whole, socket.inbox)
        invariant Ponged(pongs, old(socket.outbox), old(masksDrawn))
        decreases |socket.inbox|
      {
        assert pongs <= h.pongs;
        ghost var b := socket.inbox;
        var outcome, answered := HearFrame(pongs, old(socket.outbox), old(masksDrawn));
        pongs := answered;
        if outcome.Some? {
          if outcome.value == Err(Broken(TimedOut)) { BoundaryAfterTimeOut(whole, b, socket.inbox); }
          return outcome.value, pongs;
        }
        ParsedIsShorter(b);
        NextBoundary(whole, b);
      }
    }

    /** The result of receiving, and the pongs sent for it, are those of listening at `whole`, as far as it got. */
    ghost predicate Completes(whole: seq<bv8>, r: Result<seq<bv8>, TextError>, pongs: seq<seq<bv8>>)
      reads socket
    {
      if r == Err(Broken(TimedOut)) then Resumed(pongs, Listen(socket.inbox)) == Listen(whole)
      else Heard(r, pongs, socket.inbox) == Listen(whole)
    }

    /** Pongs sent after the state with this outbox and mask count continue those sent before it. */
    lemma PongedLater(
      before: seq<seq<bv8>>, more: seq<seq<bv8>>, outbox: seq<bv8>, drawn: nat, laterOutbox: seq<bv8>, laterDrawn: nat)
      requires laterOutbox == outbox + PongBytes(before, entropy, drawn) && laterDrawn == drawn + |before|
      requires Ponged(more, laterOutbox, laterDrawn)
      ensures Ponged(before + more, outbox, drawn)
    {
      PongBytesJoin(before, more, entropy, drawn);
    }

    lemma CompletesLater(
      whole: seq<bv8>, before: seq<seq<bv8>>, b: seq<bv8>, r: Result<seq<bv8>, TextError>, more: seq<seq<bv8>>)
      requires Resumed(before, Listen(b)) == Listen(whole) && Completes(b, r, more)
      ensures Completes(whole, r, before + more)
    {
      ResumedJoin(before, more, Listen(socket.inbox));
    }

    /**
     * What the poll loop does: call again after a time-out. If all of the time-outs struck between frames, the outcome
     * is the one without them: the first text, after exactly one pong for every ping before it.
     */
    method RecvTextAgain(retries: nat)
      returns (r: Result<seq<bv8>, TextError>, ghost pongs: seq<seq<bv8>>, ghost interrupted: seq<seq<bv8>>)
      modifies socket, this`masksDrawn
      ensures Ponged(pongs, old(socket.outbox), old(masksDrawn))
      ensures Harmless([old(socket.inbox)] + interrupted) ==> Completes(old(socket.inbox), r, pongs)
      ensures r == Err(Broken(TimedOut)) ==> |interrupted| == retries + 1
    {
      ghost var first := socket.inbox;
      interrupted := [];
      r, pongs := RecvText();
      if r == Err(Broken(TimedOut)) {
        ghost var b, before, outbox, drawn := socket.inbox, pongs, socket.outbox, masksDrawn;
        interrupted := [b];
        assert ([first] + interrupted)[0] == first && ([first] + interrupted)[1] == b;
        if retries > 0 {
          ghost var more, later;
          r, more, later := RecvTextAgain(retries - 1);
          interrupted, pongs := [b] + later, before + more;
          PongedLater(before, more, old(socket.outbox), old(masksDrawn), outbox, drawn);
          if Harmless([first] + interrupted) {
            LaterHarmless(first, b, later);
            CompletesLater(first, before, b, r, more);
          }
        }
      }
    }
  }

  /** Each of these streams continues the one before it at a frame boundary. */
  ghost predicate Harmless(streams: seq<seq<bv8>>) {
    forall i :: 0 < i < |streams| ==> Boundary(streams[i - 1], streams[i])
  }

  lemma LaterHarmless(first: seq<bv8>, second: seq<bv8>, later: seq<seq<bv8>>)
    requires Harmless([first] + ([second] + later))
    ensures Boundary(first, second) && Harmless([second] + later)
  {
    var all, tail := [first] + ([second] + later), [second] + later;
    assert all[0] == first && all[1] == second;
    forall i | 0 < i < |tail|
      ensures Boundary(tail[i - 1], tail[i])
    {
      assert all[i] == tail[i - 1] && all[i + 1] == tail[i];
    }
  }

  // ------------------------------------------------------ time-outs inside a frame

  /** Bytes arrive one by one, and the call after `k` of them times out. */
  function TimesOutAfter(k: nat): nat -> Arrival {
    (n: nat) => if n == k then TimesOut else Delivers(0)
  }

  /** Wherever inside a frame a time-out strikes, exactly the bytes before it are lost. */
  method LoseFrameStart(f: Frame, mask: Option<Mask>, rest: seq<bv8>, k: nat)
    returns (r: Result<Frame, ReadError>, connection: Connection)
    requires Sendable(f) && k < |Encoded(f, mask)|
    ensures fresh(connection) && fresh(connection.socket)
    ensures connection.socket.arrivals == TimesOutAfter(k) && connection.socket.recvCalls == k + 1
    ensures r == Err(TimedOut)
    ensures connection.socket.inbox == (Encoded(f, mask) + rest)[k..]
  {
    var b := Encoded(f, mask) + rest;
    var socket := new Socket(b, TimesOutAfter(k));
    connection := new Connection(socket, (n: nat) => [0, 0, 0, 0]);
    FrameRoundTrip(f, mask, rest);
    r := connection.ReadFrame();
    StartLost(b, rest, k, r, socket.inbox, socket.recvCalls);
  }

  /** A read of a frame that is longer than `k` bytes ends with the time-out. */
  lemma StartLost<T>(b: seq<bv8>, rest: seq<bv8>, k: nat, r: Result<T, ReadError>, inbox: seq<bv8>, calls: nat)
    requires k < |b| - |rest| && (r.Err? ==> r.error.TimedOut?)
    requires if r.Ok? then inbox == rest else IsSuffix(inbox, b)
    requires Trace(TimesOutAfter(k), 0, calls, |b| - |inbox|, r.Err?)
    ensures r == Err(TimedOut) && calls == k + 1 && inbox == b[k..]
  {
    OnlyTimeOut(k, calls, |b| - |inbox|, r.Err?);
  }

  /** On such a stream a read either times out after `k` bytes or takes at most `k` bytes. */
  lemma OnlyTimeOut(k: nat, calls: nat, consumed: int, timedOut: bool)
    requires Trace(TimesOutAfter(k), 0, calls, consumed, timedOut)
    ensures if timedOut then calls == k + 1 && consumed == k else consumed <= k
  {
    assert Bytewise(TimesOutAfter(k)) && TimesOutAfter(k)(k).TimesOut?;
    var delivered := if timedOut then calls - 1 else calls;
    if k < delivered { NoneTimesOut(TimesOutAfter(k), 0, delivered, k); }
  }

  /** With a header lost, the next read takes the text of the old frame for a frame. */
  method ReadInsideFrame(g: Frame, rest: seq<bv8>)
    returns (first: Result<Frame, ReadError>, second: Result<Frame, ReadError>)
    requires Sendable(g) && |Encoded(g, None)| < 126
    ensures first == Err(TimedOut) && second == Ok(g)
  {
    var connection;
    first, connection := LoseFrameStart(Frame(TEXT, Encoded(g, None)), None, rest, 2);
    DroppedHeaderShiftsFrames(g, rest);
    second := connection.ReadFrame();
  }
}
