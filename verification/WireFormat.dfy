/** The bytes of a frame, position by position, and what `recv_text` makes of any stream of them. */
module WireFormat {
  import opened Collections
  import opened WebSocketFrames

  // ------------------------------------------------------------ byte values

  lemma HighBit(x: bv8)
    ensures x & 0x80 != 0 <==> x as nat >= 128
    ensures (x & 0x7F) as nat == x as nat % 128 && (x & 0x0F) as nat == x as nat % 16
  {
    LowHalf(x);
  }

  lemma LowHalf(x: bv8)
    ensures x < 0x80 <==> x as nat < 128
    ensures (x & 0x7F) as nat == if x as nat < 128 then x as nat else x as nat - 128
  {
  }

  lemma {:induction false} FromTwoBytes(bytes: seq<bv8>)
    requires |bytes| == 2
    ensures FromBigEndian(bytes) == bytes[0] as nat * 256 + bytes[1] as nat
  {
    assert bytes == [bytes[0]] + [bytes[1]];
    FromBigEndianAppend([bytes[0]], bytes[1]);
    FromBigEndianAppend([], bytes[0]);
  }

  lemma FromJoined(high: seq<bv8>, low: seq<bv8>)
    requires |low| == 2
    ensures FromBigEndian(high + low) == FromBigEndian(high) * 65536 + FromBigEndian(low)
  {
    FromTwoBytes(low);
    assert high + low == (high + [low[0]]) + [low[1]];
    FromBigEndianAppend(high + [low[0]], low[1]);
    FromBigEndianAppend(high, low[0]);
  }

  lemma FromEightBytes(bytes: seq<bv8>)
    requires |bytes| == 8
    ensures FromBigEndian(bytes) ==
      ((FromBigEndian(bytes[..2]) * 65536 + FromBigEndian(bytes[2..4])) * 65536 + FromBigEndian(bytes[4..6])) * 65536
        + FromBigEndian(bytes[6..])
  {
    assert bytes == bytes[..6] + bytes[6..] && bytes[..6] == bytes[..4] + bytes[4..6];
    assert bytes[..4] == bytes[..2] + bytes[2..4];
    FromJoined(bytes[..6], bytes[6..]);
    FromJoined(bytes[..4], bytes[4..6]);
    FromJoined(bytes[..2], bytes[2..4]);
  }

  /** Two bytes from position `i` on, the more significant one first. */
  function Pair(b: seq<bv8>, i: nat): nat
    requires i + 1 < |b|
  {
    b[i] as nat * 256 + b[i + 1] as nat
  }

  /** The extended payload length of a header. */
  function ExtendedLength(b: seq<bv8>): nat
    requires |b| >= 4 && (b[1] as nat % 128 == 127 ==> |b| >= 10)
  {
    if b[1] as nat % 128 == 126 then Pair(b, 2)
    else if b[1] as nat % 128 == 127 then
      ((Pair(b, 2) * 65536 + Pair(b, 4)) * 65536 + Pair(b, 6)) * 65536 + Pair(b, 8)
    else 0
  }

  lemma ExtendedExactly(b: seq<bv8>)
    requires |b| >= 4 && ExtensionSize(b[1]) > 0 && |b| >= 2 + ExtensionSize(b[1])
    ensures b[1] as nat % 128 == 127 ==> |b| >= 10
    ensures FromBigEndian(b[2..2 + ExtensionSize(b[1])]) == ExtendedLength(b)
  {
    HighBit(b[1]);
    if b[1] & 0x7F == 126 {
      FromTwoBytes(b[2..4]);
    } else {
      var bytes := b[2..10];
      FromEightBytes(bytes);
      FromTwoBytes(bytes[..2]);
      FromTwoBytes(bytes[2..4]);
      FromTwoBytes(bytes[4..6]);
      FromTwoBytes(bytes[6..]);
    }
  }

  lemma {:induction false} MaskedAt(payload: seq<bv8>, mask: Mask, i: nat)
    requires i < |payload|
    ensures Masked(payload, mask)[i] == payload[i] ^ mask[i % 4]
  {
    if i < |payload| - 1 { MaskedAt(payload[..|payload| - 1], mask, i); }
  }

  // ---------------------------------------------------------------- reading

  /** The header bytes before the mask, the mask bytes, and the number of payload bytes that the header announces. */
  datatype Layout = Layout(header: nat, mask: nat, length: nat)

  ghost predicate HasLayout(b: seq<bv8>, y: Layout) {
    && |b| >= 2
    && y.header == (if b[1] as nat % 128 == 126 then 4 else if b[1] as nat % 128 == 127 then 10 else 2)
    && |b| >= y.header
    && y.mask == (if b[1] as nat >= 128 then 4 else 0)
    && y.length == if y.header == 2 then b[1] as nat % 128 else ExtendedLength(b)
  }

  /** The payload bytes behind header and mask, each combined with its mask byte if there is a mask. */
  ghost predicate PayloadStands(payload: seq<bv8>, b: seq<bv8>, header: nat, mask: nat, length: nat)
    requires |b| >= header + mask + length
  {
    && |payload| == length
    && forall i :: 0 <= i < length ==>
         payload[i] == if mask == 4 then b[header + mask + i] ^ b[header + i % 4] else b[header + mask + i]
  }

  /** Opcode, payload, and what follows stand at these positions. */
  ghost predicate StandsAt(b: seq<bv8>, f: Frame, rest: seq<bv8>, header: nat, mask: nat, length: nat) {
    && 2 <= header && |b| >= header + mask + length
    && f.opcode as nat == b[0] as nat % 16 && PayloadStands(f.payload, b, header, mask, length)
    && rest == b[header + mask + length..]
  }

  /** The stream begins with this frame, laid out like this, and goes on with `rest`. */
  ghost predicate BeginsWith(b: seq<bv8>, f: Frame, rest: seq<bv8>, y: Layout) {
    HasLayout(b, y) && StandsAt(b, f, rest, y.header, y.mask, y.length)
  }

  lemma LayoutExactly(b: seq<bv8>) returns (y: Layout)
    requires |b| >= 2 && |b| >= 2 + ExtensionSize(b[1])
    ensures HasLayout(b, y) && y.header == 2 + ExtensionSize(b[1]) && y.mask == MaskSize(b[1])
    ensures y.length == PayloadLength(b[1], b[2..y.header])
  {
    HighBit(b[1]);
    if ExtensionSize(b[1]) > 0 { ExtendedExactly(b); }
    y := Layout(2 + ExtensionSize(b[1]), MaskSize(b[1]), PayloadLength(b[1], b[2..2 + ExtensionSize(b[1])]));
  }

  /** A frame is read exactly if the stream begins with it. */
  lemma ReadExactly(b: seq<bv8>, f: Frame, rest: seq<bv8>)
    ensures ParseFrame(b) == Some((f, rest)) <==> exists y :: BeginsWith(b, f, rest, y)
  {
    if ParseFrame(b).Some? {
      var y := ParsedBegins(b);
      if ParseFrame(b) == Some((f, rest)) { assert BeginsWith(b, f, rest, y); }
    }
    forall y | BeginsWith(b, f, rest, y) ensures ParseFrame(b) == Some((f, rest)) { BeginsParsed(b, f, rest, y); }
  }

  lemma LayoutOnce(b: seq<bv8>, y: Layout, z: Layout)
    requires HasLayout(b, y) && HasLayout(b, z)
    ensures y == z
  {
  }

  /** The frame at these positions. */
  function FrameAt(b: seq<bv8>, header: nat, start: nat, end: nat): (Frame, seq<bv8>)
    requires 2 <= header <= start <= end <= |b|
  {
    (Frame(b[0] & 0x0F, Unmasked(b[start..end], b[header..start])), b[end..])
  }

  lemma ParseByLayout(b: seq<bv8>, y: Layout)
    requires HasLayout(b, y)
    ensures y.header >= 2 && (y.mask == 0 || y.mask == 4)
    ensures var start, end := y.header + y.mask, y.header + y.mask + y.length;
      ParseFrame(b) == if |b| < end then None else Some(FrameAt(b, y.header, start, end))
  {
    HeaderExactly(b, y);
    var z := LayoutExactly(b);
    LayoutOnce(b, y, z);
  }

  lemma HeaderExactly(b: seq<bv8>, y: Layout)
    requires HasLayout(b, y)
    ensures |b| >= 2 && y.header == 2 + ExtensionSize(b[1]) && |b| >= y.header
  {
    HighBit(b[1]);
  }

  lemma UnmaskedStands(b: seq<bv8>, header: nat, mask: nat, length: nat)
    requires |b| >= header + mask + length && (mask == 0 || mask == 4)
    ensures var start, end := header + mask, header + mask + length;
      PayloadStands(Unmasked(b[start..end], b[header..start]), b, header, mask, length)
  {
    var key, body := b[header..header + mask], b[header + mask..header + mask + length];
    if mask == 4 {
      forall i | 0 <= i < length ensures Masked(body, key)[i] == b[header + mask + i] ^ b[header + i % 4] {
        MaskedAt(body, key, i);
        assert key[i % 4] == b[header + i % 4] && body[i] == b[header + mask + i];
      }
    }
  }

  lemma FrameStands(b: seq<bv8>, header: nat, mask: nat, length: nat)
    requires 2 <= header && |b| >= header + mask + length && (mask == 0 || mask == 4)
    ensures var (f, rest) := FrameAt(b, header, header + mask, header + mask + length);
      StandsAt(b, f, rest, header, mask, length)
  {
    UnmaskedStands(b, header, mask, length);
    HighBit(b[0]);
  }

  lemma ParsedBegins(b: seq<bv8>) returns (y: Layout)
    requires ParseFrame(b).Some?
    ensures BeginsWith(b, ParseFrame(b).value.0, ParseFrame(b).value.1, y)
  {
    y := LayoutExactly(b);
    ParseByLayout(b, y);
    FrameStands(b, y.header, y.mask, y.length);
  }

  lemma BeginsOnce(b: seq<bv8>, f: Frame, rest: seq<bv8>, g: Frame, tail: seq<bv8>, y: Layout)
    requires BeginsWith(b, f, rest, y) && BeginsWith(b, g, tail, y)
    ensures f == g && rest == tail
  {
    SameByte(f.opcode, g.opcode);
    assert f.payload == g.payload;
  }

  lemma BeginsParsed(b: seq<bv8>, f: Frame, rest: seq<bv8>, y: Layout)
    requires BeginsWith(b, f, rest, y)
    ensures ParseFrame(b) == Some((f, rest))
  {
    ParseByLayout(b, y);
    FrameStands(b, y.header, y.mask, y.length);
    var (g, tail) := FrameAt(b, y.header, y.header + y.mask, y.header + y.mask + y.length);
    BeginsOnce(b, f, rest, g, tail, y);
  }

  lemma SameByte(x: bv8, y: bv8)
    requires x as nat == y as nat
    ensures x == y
  {
  }

  // ---------------------------------------------------------------- writing

  lemma FirstByte(opcode: bv8)
    requires opcode < 16
    ensures (0x80 | (opcode & 0x0F)) as nat == 128 + opcode as nat
  {
  }

  lemma SecondByte(masked: bool, low: bv8)
    requires low < 0x80
    ensures ((if masked then 0x80 as bv8 else 0) | low) as nat == (if masked then 128 else 0) + low as nat
  {
  }

  /** A written frame is final, has the shortest length form, and carries its mask after the length. */
  lemma WrittenExactly(f: Frame, mask: Option<Mask>)
    requires Sendable(f)
    ensures var b, n := Encoded(f, mask), |f.payload|;
      && |b| >= 2 && b[0] as nat == 128 + f.opcode as nat
      && b[1] as nat == (if mask.Some? then 128 else 0) + (if n < 126 then n else if n < 65536 then 126 else 127)
      && var header := if n < 126 then 2 else if n < 65536 then 4 else 10;
         && |b| == header + (if mask.Some? then 4 else 0) + n
         && (mask.Some? ==> b[header..header + 4] == mask.value)
  {
    var field := LengthField(|f.payload|, MaskBit(mask));
    FirstByte(f.opcode);
    WrittenLength(|f.payload|, mask);
    var head := [0x80 | (f.opcode & 0x0F)] + field;
    JoinedSlices(head, MaskBytes(mask), Body(f.payload, mask), []);
    assert head + MaskBytes(mask) + Body(f.payload, mask) + [] == Encoded(f, mask);
    assert Encoded(f, mask)[1] == field[0];
  }

  lemma WrittenLength(n: nat, mask: Option<Mask>)
    requires n < MAX_PAYLOAD
    ensures var field := LengthField(n, MaskBit(mask));
      && |field| == (if n < 126 then 1 else if n < 65536 then 3 else 9)
      && field[0] as nat
           == (if mask.Some? then 128 else 0) + (if n < 126 then n else if n < 65536 then 126 else 127)
  {
    if n < 126 {
      ByteRoundTrip(n);
      ByteOrder(ByteOf(n));
      SecondByte(mask.Some?, ByteOf(n));
    } else {
      SecondByte(mask.Some?, 126);
      SecondByte(mask.Some?, 127);
    }
  }

  /** The single-frame text messages of the examples in RFC 6455 section 5.7. */
  lemma WrittenExamples()
    ensures var hello := [0x48, 0x65, 0x6C, 0x6C, 0x6F];
      && Encoded(Frame(0x1, hello), None) == [0x81, 0x05, 0x48, 0x65, 0x6C, 0x6C, 0x6F]
      && Encoded(Frame(0x1, hello), Some([0x37, 0xFA, 0x21, 0x3D]))
           == [0x81, 0x85, 0x37, 0xFA, 0x21, 0x3D, 0x7F, 0x9F, 0x4D, 0x51, 0x58]
  {
    var hello: seq<bv8> := [0x48, 0x65, 0x6C, 0x6C, 0x6F];
    var mask: Mask := [0x37, 0xFA, 0x21, 0x3D];
    ByteRoundTrip(5);
    var masked := Masked(hello, mask);
    forall i | 0 <= i < 5 ensures masked[i] == hello[i] ^ mask[i % 4] { MaskedAt(hello, mask, i); }
    assert masked == [0x7F, 0x9F, 0x4D, 0x51, 0x58];
  }

  // -------------------------------------------------------------- listening

  /**
   * After keepalive frames only, the first other frame decides: a text is returned, a close frame or an unknown opcode
   * ends listening with an error, and so does the end of the stream; every ping before it was answered.
   */
  lemma {:induction false} FirstOtherFrameDecides(frames: seq<Frame>, masks: seq<Option<Mask>>, rest: seq<bv8>)
    requires |frames| == |masks|
    requires forall f :: f in frames ==> Sendable(f) && (f.opcode == 0x9 || f.opcode == 0xA)
    requires ParseFrame(rest).Some? ==>
      ParseFrame(rest).value.0.opcode != 0x9 && ParseFrame(rest).value.0.opcode != 0xA
    ensures Listen(EncodedAll(frames, masks) + rest) ==
      match ParseFrame(rest)
      case None => Heard(Err(Broken(EndOfStream)), PingPayloads(frames), [])
      case Some((f, tail)) =>
        Heard(if f.opcode == 0x1 then Ok(f.payload)
              else if f.opcode == 0x8 then Err(ClosedByPeer) else Err(UnsupportedOpcode(f.opcode)),
              PingPayloads(frames), tail)
  {
    if frames == [] {
      assert EncodedAll(frames, masks) + rest == rest;
    } else {
      var b := EncodedAll(frames, masks) + rest;
      assert frames[0] in frames;
      FirstOfStream(frames, masks, rest);
      ListenTo(b, frames[0], EncodedAll(frames[1..], masks[1..]) + rest);
      FirstOtherFrameDecides(frames[1..], masks[1..], rest);
    }
  }

  /** A further ping adds its payload at the end, any other frame adds nothing. */
  lemma {:induction false} PingsInOrder(frames: seq<Frame>, f: Frame)
    ensures PingPayloads(frames + [f]) == PingPayloads(frames) + if f.opcode == 0x9 then [f.payload] else []
  {
    if frames == [] {
      assert [f][1..] == [];
    } else {
      assert (frames + [f])[1..] == frames[1..] + [f];
      PingsInOrder(frames[1..], f);
    }
  }
}
