/**
 * Frames of `app/exchanges/binance/private_transport.py`: RFC 6455 sections 5.2 (framing), 5.3 (masking),
 * 5.5.2-5.5.3.
 */
module WebSocketFrames {
  import opened Collections

  const TEXT: bv8 := 0x1
  const CLOSE: bv8 := 0x8
  const PING: bv8 := 0x9
  const PONG: bv8 := 0xA

  /** No payload of more bytes can be announced. */
  const MAX_PAYLOAD: nat := 0x1_0000_0000_0000_0000

  type Mask = m: seq<bv8> | |m| == 4 witness [0, 0, 0, 0]

  datatype Frame = Frame(opcode: bv8, payload: seq<bv8>)

  predicate Sendable(f: Frame) { f.opcode < 16 && |f.payload| < MAX_PAYLOAD }

  // ---------------------------------------------------------------- byte level

  /** The byte of this value (`ByteRoundTrip`). */
  function ByteOf(n: nat): bv8
    requires n < 256
  {
    if n == 0 then 0 else ByteOf(n - 1) + 1
  }

  /** `length.to_bytes(size, "big")` */
  function BigEndian(n: nat, size: nat): (r: seq<bv8>)
    ensures |r| == size
  {
    if size == 0 then [] else BigEndian(n / 256, size - 1) + [ByteOf(n % 256)]
  }

  /** `int.from_bytes(bytes, "big")` */
  function FromBigEndian(bytes: seq<bv8>): nat {
    if bytes == [] then 0 else FromBigEndian(bytes[..|bytes| - 1]) * 256 + bytes[|bytes| - 1] as nat
  }

  function Power256(size: nat): nat {
    if size == 0 then 1 else 256 * Power256(size - 1)
  }

  lemma NextByte(b: bv8)
    requires b != 255
    ensures (b + 1) as nat == b as nat + 1
  {
  }

  lemma {:induction false} ByteRoundTrip(n: nat)
    requires n < 256
    ensures ByteOf(n) as nat == n && ByteOf(n) == n as bv8
  {
    if n > 0 {
      ByteRoundTrip(n - 1);
      NextByte(ByteOf(n - 1));
    }
    assert (ByteOf(n) as nat) as bv8 == ByteOf(n);
  }

  lemma FromBigEndianAppend(bytes: seq<bv8>, x: bv8)
    ensures FromBigEndian(bytes + [x]) == FromBigEndian(bytes) * 256 + x as nat
  {
    assert (bytes + [x])[..|bytes|] == bytes;
  }

  lemma {:induction false} BigEndianRoundTrip(n: nat, size: nat)
    requires n < Power256(size)
    ensures FromBigEndian(BigEndian(n, size)) == n
  {
    if size > 0 {
      BigEndianRoundTrip(n / 256, size - 1);
      var low := n % 256;
      FromBigEndianAppend(BigEndian(n / 256, size - 1), ByteOf(low));
      ByteRoundTrip(low);
    }
  }

  lemma Widths()
    ensures Power256(2) == 65536 && Power256(8) == MAX_PAYLOAD
  {
  }

  /** Byte k is combined with mask byte k mod 4. */
  function Masked(payload: seq<bv8>, mask: Mask): (r: seq<bv8>)
    ensures |r| == |payload|
  {
    if payload == [] then []
    else
      var n := |payload| - 1;
      Masked(payload[..n], mask) + [payload[n] ^ mask[n % 4]]
  }

  lemma XorTwice(x: bv8, y: bv8)
    ensures (x ^ y) ^ y == x
  {
  }

  lemma MaskedAppend(payload: seq<bv8>, x: bv8, mask: Mask)
    ensures Masked(payload + [x], mask) == Masked(payload, mask) + [x ^ mask[|payload| % 4]]
  {
    var n, longer := |payload|, payload + [x];
    assert longer[..n] == payload && longer[n] == x;
    assert Masked(longer, mask) == Masked(longer[..n], mask) + [longer[n] ^ mask[n % 4]];
  }

  lemma {:induction false} MaskingUndoesItself(payload: seq<bv8>, mask: Mask)
    ensures Masked(Masked(payload, mask), mask) == payload
  {
    if payload != [] {
      var front, x := payload[..|payload| - 1], payload[|payload| - 1];
      assert payload == front + [x];
      MaskingUndoesItself(front, mask);
      MaskedAppend(front, x, mask);
      MaskedAppend(Masked(front, mask), x ^ mask[|front| % 4], mask);
      XorTwice(x, mask[|front| % 4]);
    }
  }

  // ------------------------------------------------------------ writing a frame

  function MaskBit(mask: Option<Mask>): bv8 { if mask.Some? then 0x80 else 0 }

  function MaskBytes(mask: Option<Mask>): seq<bv8> { if mask.Some? then mask.value else [] }

  /** The second header byte and the extended payload length, in the shortest of the three forms. */
  function LengthField(length: nat, maskBit: bv8): seq<bv8> {
    if length < 126 then [maskBit | ByteOf(length)]
    else if length < 65536 then [maskBit | 126] + BigEndian(length, 2)
    else [maskBit | 127] + BigEndian(length, 8)
  }

  function Body(payload: seq<bv8>, mask: Option<Mask>): (r: seq<bv8>)
    ensures |r| == |payload|
  {
    if mask.Some? then Masked(payload, mask.value) else payload
  }

  /** A final frame on the wire; clients mask their frames, servers do not. */
  function Encoded(f: Frame, mask: Option<Mask>): seq<bv8> {
    [0x80 | (f.opcode & 0x0F)] + LengthField(|f.payload|, MaskBit(mask)) + MaskBytes(mask)
    + Body(f.payload, mask)
  }

  // ------------------------------------------------------------ reading a frame

  predicate HasMask(second: bv8) { second & 0x80 != 0 }

  function ExtensionSize(second: bv8): nat {
    if second & 0x7F == 126 then 2 else if second & 0x7F == 127 then 8 else 0
  }

  function MaskSize(second: bv8): nat { if HasMask(second) then 4 else 0 }

  function PayloadLength(second: bv8, extension: seq<bv8>): nat {
    if ExtensionSize(second) == 0 then (second & 0x7F) as nat else FromBigEndian(extension)
  }

  function Unmasked(body: seq<bv8>, mask: seq<bv8>): seq<bv8> {
    if |mask| == 4 then Masked(body, mask) else body
  }

  /** The first frame of a byte stream and what follows it; `None` when the stream ends inside the frame. */
  function ParseFrame(b: seq<bv8>): Option<(Frame, seq<bv8>)> {
    if |b| < 2 then None
    else
      var extended := 2 + ExtensionSize(b[1]);
      if |b| < extended then None
      else
        var start := extended + MaskSize(b[1]);
        var end := start + PayloadLength(b[1], b[2..extended]);
        if |b| < end then None
        else Some((Frame(b[0] & 0x0F, Unmasked(b[start..end], b[extended..start])), b[end..]))
  }

  lemma HeaderBits(opcode: bv8, maskBit: bv8, low: bv8)
    requires (maskBit == 0 || maskBit == 0x80) && low < 0x80
    ensures (0x80 | (opcode & 0x0F)) & 0x0F == opcode & 0x0F
    ensures (maskBit | low) & 0x7F == low && (maskBit | low) & 0x80 == maskBit
    ensures opcode < 16 ==> opcode & 0x0F == opcode
  {
  }

  lemma ByteOrder(x: bv8)
    ensures x as nat < 126 ==> x < 126
  {
  }

  /** What the reader recovers from the length field. */
  lemma LengthFieldRoundTrip(length: nat, mask: Option<Mask>)
    requires length < MAX_PAYLOAD
    ensures var field := LengthField(length, MaskBit(mask));
      && |field| == 1 + ExtensionSize(field[0]) && PayloadLength(field[0], field[1..]) == length
      && MaskSize(field[0]) == |MaskBytes(mask)|
  {
    var field := LengthField(length, MaskBit(mask));
    if length < 126 {
      ByteRoundTrip(length);
      ByteOrder(ByteOf(length));
      HeaderBits(0, MaskBit(mask), ByteOf(length));
    } else if length < 65536 {
      HeaderBits(0, MaskBit(mask), 126);
      Widths();
      BigEndianRoundTrip(length, 2);
      assert field[1..] == BigEndian(length, 2);
    } else {
      HeaderBits(0, MaskBit(mask), 127);
      Widths();
      BigEndianRoundTrip(length, 8);
      assert field[1..] == BigEndian(length, 8);
    }
  }

  ghost predicate Announced(field: seq<bv8>, mask: seq<bv8>, body: seq<bv8>) {
    && |field| >= 1 && |field| == 1 + ExtensionSize(field[0]) && |mask| == MaskSize(field[0])
    && PayloadLength(field[0], field[1..]) == |body|
  }

  lemma JoinedSlices<T>(head: seq<T>, mask: seq<T>, body: seq<T>, rest: seq<T>)
    ensures var b, start, end := head + mask + body + rest, |head| + |mask|, |head| + |mask| + |body|;
      b[..|head|] == head && b[|head|..start] == mask && b[start..end] == body && b[end..] == rest
  {
    var front, b := head + mask, head + mask + body + rest;
    assert b == front + (body + rest);
    assert b[..|head|] == head && b[|head|..|front|] == mask;
    assert b[|front|..] == body + rest;
  }

  /** The pieces of a frame that announce each other's sizes are found again. */
  lemma ParseParts(first: bv8, field: seq<bv8>, mask: seq<bv8>, body: seq<bv8>, rest: seq<bv8>)
    requires Announced(field, mask, body)
    ensures ParseFrame([first] + field + mask + body + rest) == Some((Frame(first & 0x0F, Unmasked(body, mask)), rest))
  {
    var head := [first] + field;
    var b := head + mask + body + rest;
    JoinedSlices(head, mask, body, rest);
    assert b[0] == first && b[1] == field[0];
    assert b[2..|head|] == b[..|head|][2..] == head[2..] == field[1..];
  }

  lemma BodyRoundTrip(payload: seq<bv8>, mask: Option<Mask>)
    ensures Unmasked(Body(payload, mask), MaskBytes(mask)) == payload
  {
    if mask.Some? { MaskingUndoesItself(payload, mask.value); }
  }

  /** Reading a written frame returns its opcode and payload and leaves exactly what follows. */
  lemma FrameRoundTrip(f: Frame, mask: Option<Mask>, rest: seq<bv8>)
    requires Sendable(f)
    ensures ParseFrame(Encoded(f, mask) + rest) == Some((f, rest))
  {
    var field := LengthField(|f.payload|, MaskBit(mask));
    LengthFieldRoundTrip(|f.payload|, mask);
    HeaderBits(f.opcode, 0, 0);
    ParseParts(0x80 | (f.opcode & 0x0F), field, MaskBytes(mask), Body(f.payload, mask), rest);
    BodyRoundTrip(f.payload, mask);
  }

  lemma Parts(b: seq<bv8>) returns (field: seq<bv8>, mask: seq<bv8>, body: seq<bv8>, rest: seq<bv8>)
    requires ParseFrame(b).Some?
    ensures Announced(field, mask, body) && b == [b[0]] + field + mask + body + rest
  {
    var extended := 2 + ExtensionSize(b[1]);
    var start := extended + MaskSize(b[1]);
    var end := start + PayloadLength(b[1], b[2..extended]);
    field, mask, body, rest := b[1..extended], b[extended..start], b[start..end], b[end..];
    assert field[1..] == b[2..extended];
    Slices(b, extended, start, end);
  }

  lemma Slices(b: seq<bv8>, i: nat, j: nat, k: nat)
    requires 1 <= i <= j <= k <= |b|
    ensures b == [b[0]] + b[1..i] + b[i..j] + b[j..k] + b[k..]
  {
  }

  /** More bytes after a complete frame do not change it. */
  lemma MoreBytes(b: seq<bv8>, more: seq<bv8>)
    requires ParseFrame(b).Some?
    ensures ParseFrame(b + more) == Some((ParseFrame(b).value.0, ParseFrame(b).value.1 + more))
  {
    var field, mask, body, rest := Parts(b);
    ParseParts(b[0], field, mask, body, rest);
    ParseParts(b[0], field, mask, body, rest + more);
    Extended([b[0]] + field, mask, body, rest, more);
  }

  lemma Extended<T>(a: seq<T>, b: seq<T>, c: seq<T>, d: seq<T>, more: seq<T>)
    ensures a + b + c + d + more == a + b + c + (d + more)
  {
  }

  /** A frame cut short is not taken for a frame. */
  lemma CutFrameIsIncomplete(f: Frame, mask: Option<Mask>, n: nat)
    requires Sendable(f) && n < |Encoded(f, mask)|
    ensures ParseFrame(Encoded(f, mask)[..n]) == None
  {
    var whole := Encoded(f, mask);
    FrameRoundTrip(f, mask, []);
    assert whole + [] == whole == whole[..n] + whole[n..];
    if ParseFrame(whole[..n]).Some? { MoreBytes(whole[..n], whole[n..]); }
  }

  // --------------------------------------------------------- streams of frames

  /** The parts one after the other. */
  function Flat(parts: seq<seq<bv8>>): seq<bv8> {
    if parts == [] then [] else parts[0] + Flat(parts[1..])
  }

  lemma {:induction false} FlatConcat(a: seq<seq<bv8>>, b: seq<seq<bv8>>)
    ensures Flat(a + b) == Flat(a) + Flat(b)
  {
    if a == [] {
      assert a + b == b;
    } else {
      FlatConcat(a[1..], b);
      assert (a + b)[1..] == a[1..] + b;
      assert a[0] + (Flat(a[1..]) + Flat(b)) == a[0] + Flat(a[1..]) + Flat(b);
    }
  }

  function EncodedEach(frames: seq<Frame>, masks: seq<Option<Mask>>): (r: seq<seq<bv8>>)
    requires |frames| == |masks|
    ensures |r| == |frames|
  {
    seq(|frames|, i requires 0 <= i < |frames| => Encoded(frames[i], masks[i]))
  }

  function EncodedAll(frames: seq<Frame>, masks: seq<Option<Mask>>): seq<bv8>
    requires |frames| == |masks|
  {
    if frames == [] then [] else Encoded(frames[0], masks[0]) + EncodedAll(frames[1..], masks[1..])
  }

  lemma {:induction false} EncodedAllIsFlat(frames: seq<Frame>, masks: seq<Option<Mask>>)
    requires |frames| == |masks|
    ensures EncodedAll(frames, masks) == Flat(EncodedEach(frames, masks))
  {
    if frames != [] {
      EncodedAllIsFlat(frames[1..], masks[1..]);
      assert EncodedEach(frames, masks)[1..] == EncodedEach(frames[1..], masks[1..]);
    }
  }

  /** The first `n` frames of a byte stream and what follows them. */
  function ParseFrames(b: seq<bv8>, n: nat): Option<(seq<Frame>, seq<bv8>)> {
    if n == 0 then Some(([], b))
    else
      match ParseFrame(b)
      case None => None
      case Some((f, rest)) =>
        match ParseFrames(rest, n - 1)
        case None => None
        case Some((frames, tail)) => Some(([f] + frames, tail))
  }

  lemma FirstOfStream(frames: seq<Frame>, masks: seq<Option<Mask>>, rest: seq<bv8>)
    requires |frames| == |masks| && frames != [] && Sendable(frames[0])
    ensures ParseFrame(EncodedAll(frames, masks) + rest)
      == Some((frames[0], EncodedAll(frames[1..], masks[1..]) + rest))
  {
    var first, tail := Encoded(frames[0], masks[0]), EncodedAll(frames[1..], masks[1..]);
    FrameRoundTrip(frames[0], masks[0], tail + rest);
    assert first + tail + rest == first + (tail + rest);
  }

  lemma ParseFramesStep(b: seq<bv8>, f: Frame, rest: seq<bv8>, n: nat, frames: seq<Frame>, tail: seq<bv8>)
    requires ParseFrame(b) == Some((f, rest)) && ParseFrames(rest, n) == Some((frames, tail))
    ensures ParseFrames(b, n + 1) == Some(([f] + frames, tail))
  {
  }

  lemma {:induction false} FramesRoundTrip(frames: seq<Frame>, masks: seq<Option<Mask>>, rest: seq<bv8>)
    requires |frames| == |masks| && forall f :: f in frames ==> Sendable(f)
    ensures ParseFrames(EncodedAll(frames, masks) + rest, |frames|) == Some((frames, rest))
  {
    if frames == [] {
      assert masks == [];
      NoFrames(rest);
    } else {
      assert frames[0] in frames && forall f :: f in frames[1..] ==> f in frames;
      FramesRoundTrip(frames[1..], masks[1..], rest);
      FrameBefore(frames, masks, rest);
    }
  }

  lemma FrameBefore(frames: seq<Frame>, masks: seq<Option<Mask>>, rest: seq<bv8>)
    requires |frames| == |masks| && frames != [] && Sendable(frames[0])
    requires ParseFrames(EncodedAll(frames[1..], masks[1..]) + rest, |frames| - 1) == Some((frames[1..], rest))
    ensures ParseFrames(EncodedAll(frames, masks) + rest, |frames|) == Some((frames, rest))
  {
    var first, more := frames[0], frames[1..];
    FirstOfStream(frames, masks, rest);
    ParseFramesStep(EncodedAll(frames, masks) + rest, first, EncodedAll(more, masks[1..]) + rest, |more|, more, rest);
    assert frames == [first] + more;
  }

  lemma NoFrames(rest: seq<bv8>)
    ensures ParseFrames(EncodedAll([], []) + rest, 0) == Some(([], rest))
  {
    assert EncodedAll([], []) + rest == rest;
  }

  // -------------------------------------------------------- listening for text

  datatype ReadError = EndOfStream | TimedOut

  datatype TextError = Broken(cause: ReadError) | ClosedByPeer | UnsupportedOpcode(opcode: bv8)

  /** Outcome of waiting for a text frame: the result, the payloads answered by a pong, and the unread bytes. */
  datatype Heard = Heard(result: Result<seq<bv8>, TextError>, pongs: seq<seq<bv8>>, rest: seq<bv8>)

  /** What is heard after these payloads were already answered. */
  function Resumed(pongs: seq<seq<bv8>>, h: Heard): Heard {
    Heard(h.result, pongs + h.pongs, h.rest)
  }

  lemma ParsedIsShorter(b: seq<bv8>)
    ensures ParseFrame(b).Some? ==> |ParseFrame(b).value.1| < |b|
  {
  }

  /** `recv_text` as a function of the bytes still to come. */
  function Listen(b: seq<bv8>): Heard
    decreases |b|
  {
    match ParseFrame(b)
    case None => Heard(Err(Broken(EndOfStream)), [], [])
    case Some((f, rest)) =>
      ParsedIsShorter(b);
      if f.opcode == TEXT then Heard(Ok(f.payload), [], rest)
      else if f.opcode == PING then
        Resumed([f.payload], Listen(rest))
      else if f.opcode == CLOSE then Heard(Err(ClosedByPeer), [], rest)
      else if f.opcode == PONG then Listen(rest)
      else Heard(Err(UnsupportedOpcode(f.opcode)), [], rest)
  }

  lemma ListenTo(b: seq<bv8>, f: Frame, rest: seq<bv8>)
    requires ParseFrame(b) == Some((f, rest))
    ensures f.opcode == TEXT ==> Listen(b) == Heard(Ok(f.payload), [], rest)
    ensures f.opcode == PING ==> Listen(b) == Resumed([f.payload], Listen(rest))
    ensures f.opcode == PONG ==> Listen(b) == Listen(rest)
  {
    ParsedIsShorter(b);
  }

  lemma ListenStep(b: seq<bv8>, pongs: seq<seq<bv8>>)
    requires ParseFrame(b).Some?
    ensures var (f, rest) := ParseFrame(b).value;
      && (f.opcode == PING ==> Resumed(pongs, Listen(b)) == Resumed(pongs + [f.payload], Listen(rest)))
      && (f.opcode == PONG ==> Resumed(pongs, Listen(b)) == Resumed(pongs, Listen(rest)))
  {
    var (f, rest) := ParseFrame(b).value;
    ListenTo(b, f, rest);
    ResumedJoin(pongs, [f.payload], Listen(rest));
  }

  lemma ResumedJoin(a: seq<seq<bv8>>, b: seq<seq<bv8>>, h: Heard)
    ensures Resumed(a, Resumed(b, h)) == Resumed(a + b, h)
  {
    assert a + (b + h.pongs) == a + b + h.pongs;
  }

  /** Listening ends here unless the stream begins with a keepalive frame. */
  lemma ListenEnds(b: seq<bv8>, pongs: seq<seq<bv8>>)
    requires ParseFrame(b).Some? ==> !Keepalive(ParseFrame(b).value.0)
    ensures Listen(b).pongs == [] && Resumed(pongs, Listen(b)).pongs == pongs
  {
  }

  predicate Keepalive(f: Frame) { f.opcode == PING || f.opcode == PONG }

  function PingPayloads(frames: seq<Frame>): seq<seq<bv8>> {
    if frames == [] then []
    else if frames[0].opcode == PING then [frames[0].payload] + PingPayloads(frames[1..])
    else PingPayloads(frames[1..])
  }

  /** The first text payload is returned, after one pong per preceding ping with the same payloads in the same order. */
  lemma {:induction false} FirstTextIsHeard(
    frames: seq<Frame>, masks: seq<Option<Mask>>, text: seq<bv8>, mask: Option<Mask>, rest: seq<bv8>)
    requires |frames| == |masks| && |text| < MAX_PAYLOAD
    requires forall f :: f in frames ==> Sendable(f) && Keepalive(f)
    ensures Listen(EncodedAll(frames, masks) + (Encoded(Frame(TEXT, text), mask) + rest))
         == Heard(Ok(text), PingPayloads(frames), rest)
  {
    var last := Encoded(Frame(TEXT, text), mask) + rest;
    if frames == [] {
      assert EncodedAll(frames, masks) + last == last;
      FrameRoundTrip(Frame(TEXT, text), mask, rest);
      ListenTo(last, Frame(TEXT, text), rest);
    } else {
      assert Sendable(frames[0]) && Keepalive(frames[0]);
      FirstOfStream(frames, masks, last);
      ListenTo(EncodedAll(frames, masks) + last, frames[0], EncodedAll(frames[1..], masks[1..]) + last);
      FirstTextIsHeard(frames[1..], masks[1..], text, mask, rest);
    }
  }

  /** Every parsed payload could be sent back. */
  lemma ParsedIsSendable(b: seq<bv8>)
    requires ParseFrame(b).Some?
    ensures Sendable(ParseFrame(b).value.0)
  {
    var field, mask, body, rest := Parts(b);
    ParseParts(b[0], field, mask, body, rest);
    LowNibble(b[0]);
    Widths();
    BigEndianBound(field[1..]);
  }

  lemma LowNibble(x: bv8)
    ensures x & 0x0F < 16 && (x & 0x7F) as nat < 128
  {
  }

  lemma {:induction false} BigEndianBound(bytes: seq<bv8>)
    ensures FromBigEndian(bytes) < Power256(|bytes|)
  {
    if bytes != [] { BigEndianBound(bytes[..|bytes| - 1]); }
  }

  // ------------------------------------------------------ frame boundaries

  /** The bytes `rest` begin where a whole number of frames of `whole` ends. */
  predicate Boundary(whole: seq<bv8>, rest: seq<bv8>)
    decreases |whole|
  {
    || rest == whole
    || (ParseFrame(whole).Some? && (ParsedIsShorter(whole); Boundary(ParseFrame(whole).value.1, rest)))
  }

  /** The bytes `rest` have not got past the first frame of `b`. */
  ghost predicate WithinFirst(b: seq<bv8>, rest: seq<bv8>) {
    ParseFrame(b).Some? ==> |rest| > |ParseFrame(b).value.1|
  }

  /** How many bytes the first frame takes, as far as the bytes at hand tell. */
  function Needed(b: seq<bv8>): nat {
    if |b| < 2 then 2
    else
      var extended := 2 + ExtensionSize(b[1]);
      if |b| < extended then extended else extended + MaskSize(b[1]) + PayloadLength(b[1], b[2..extended])
  }

  lemma NeededIsSpan(b: seq<bv8>)
    ensures ParseFrame(b).None? <==> |b| < Needed(b)
    ensures ParseFrame(b).Some? ==> |ParseFrame(b).value.1| == |b| - Needed(b)
  {
  }

  /** How many bytes the first byte and the length field take, as far as the bytes at hand tell. */
  function NeededForHeader(b: seq<bv8>): nat {
    if |b| < 2 then 2 else 2 + ExtensionSize(b[1])
  }

  lemma HeaderIsNeeded(b: seq<bv8>)
    ensures NeededForHeader(b) <= Needed(b)
  {
  }

  lemma NeededByParts(first: bv8, field: seq<bv8>, b: seq<bv8>)
    requires |field| >= 1 && |field| == 1 + ExtensionSize(field[0])
    ensures Needed([first] + field + b) == 1 + |field| + MaskSize(field[0]) + PayloadLength(field[0], field[1..])
  {
    var whole := [first] + field + b;
    assert whole[1] == field[0] && whole[2..|field| + 1] == field[1..];
  }

  lemma {:induction false} BoundaryIsShorter(whole: seq<bv8>, rest: seq<bv8>)
    requires Boundary(whole, rest)
    ensures |rest| <= |whole| && (rest != whole ==> ParseFrame(whole).Some? && |rest| <= |ParseFrame(whole).value.1|)
    decreases |whole|
  {
    if rest != whole {
      ParsedIsShorter(whole);
      BoundaryIsShorter(ParseFrame(whole).value.1, rest);
    }
  }

  lemma {:induction false} NextBoundary(whole: seq<bv8>, b: seq<bv8>)
    requires Boundary(whole, b) && ParseFrame(b).Some?
    ensures Boundary(whole, ParseFrame(b).value.1)
    decreases |whole|
  {
    ParsedIsShorter(whole);
    if b != whole {
      NextBoundary(ParseFrame(whole).value.1, b);
    } else {
      assert Boundary(ParseFrame(b).value.1, ParseFrame(b).value.1);
    }
  }

  /** No frame begins inside another. */
  lemma {:induction false} NoBoundaryInside(whole: seq<bv8>, b: seq<bv8>, rest: seq<bv8>)
    requires Boundary(whole, b) && |rest| < |b| && WithinFirst(b, rest)
    ensures !Boundary(whole, rest)
    decreases |whole|
  {
    if whole == b {
      if Boundary(whole, rest) { BoundaryIsShorter(whole, rest); }
    } else {
      ParsedIsShorter(whole);
      BoundaryIsShorter(whole, b);
      NoBoundaryInside(ParseFrame(whole).value.1, b, rest);
    }
  }

  /** The payload of a frame whose header was dropped is itself read as a frame. */
  lemma DroppedHeaderShiftsFrames(g: Frame, rest: seq<bv8>)
    requires Sendable(g) && |Encoded(g, None)| < 126
    ensures (Encoded(Frame(TEXT, Encoded(g, None)), None) + rest)[2..] == Encoded(g, None) + rest
    ensures ParseFrame(Encoded(g, None) + rest) == Some((g, rest))
  {
    FrameRoundTrip(g, None, rest);
  }
}
