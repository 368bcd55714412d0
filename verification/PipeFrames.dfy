// The length-prefixed framing of the browser host pipe
// (apps/desktop/src/browserUsePipeServer.ts, encodeFrame and decodeFrames).
module PipeFrames {
  import opened Wrappers

  type byte = x: int | 0 <= x < 256

  const FRAME_HEADER_BYTES: nat := 4
  const MAX_MESSAGE_BYTES: nat := 12 * 1024 * 1024
  const UINT32_LIMIT: nat := 0x1_0000_0000

  // os.endianness(): the server uses the byte order of the machine it runs on.
  datatype Endianness = LE | BE

  function ReadUInt32(order: Endianness, s: seq<byte>): (n: nat)
    requires |s| == FRAME_HEADER_BYTES
    ensures n < UINT32_LIMIT
  {
    var le := if order.LE? then s else [s[3], s[2], s[1], s[0]];
    var b0: int, b1: int, b2: int, b3: int := le[0], le[1], le[2], le[3];
    b0 + 0x100 * b1 + 0x1_0000 * b2 + 0x100_0000 * b3
  }

  // The four bytes of n from the least significant up.
  function ByteAt(n: nat, i: nat): byte
    requires i < 4
  {
    if i == 0 then n % 0x100
    else if i == 1 then n / 0x100 % 0x100
    else if i == 2 then n / 0x1_0000 % 0x100
    else n / 0x100_0000 % 0x100
  }

  lemma DigitsOf(n: nat)
    requires n < UINT32_LIMIT
    ensures n == ByteAt(n, 0) + 0x100 * ByteAt(n, 1) + 0x1_0000 * ByteAt(n, 2) + 0x100_0000 * ByteAt(n, 3)
  {
    assert n / 0x1_0000 == n / 0x100 / 0x100;
    assert n / 0x100_0000 == n / 0x1_0000 / 0x100;
  }

  // Buffer.writeUInt32LE / writeUInt32BE at offset 0.
  method WriteUInt32(order: Endianness, header: array<byte>, n: nat)
    requires header.Length == FRAME_HEADER_BYTES && n < UINT32_LIMIT
    modifies header
    ensures ReadUInt32(order, header[..]) == n
  {
    DigitsOf(n);
    var i := 0;
    while i < 4
      invariant 0 <= i <= 4
      invariant forall j :: 0 <= j < i ==> header[if order.LE? then j else 3 - j] == ByteAt(n, j)
    {
      header[if order.LE? then i else 3 - i] := ByteAt(n, i);
      i := i + 1;
    }
    assert order.LE? ==> header[..][0] == ByteAt(n, 0) && header[..][1] == ByteAt(n, 1) &&
                         header[..][2] == ByteAt(n, 2) && header[..][3] == ByteAt(n, 3);
    assert order.BE? ==> header[3 - 0] == ByteAt(n, 0) && header[3 - 1] == ByteAt(n, 1) &&
                         header[3 - 2] == ByteAt(n, 2) && header[3 - 3] == ByteAt(n, 3);
  }

  // What it means for bytes to be the frame of a payload, independently of how they were built.
  ghost predicate IsFrameOf(order: Endianness, frame: seq<byte>, payload: seq<byte>) {
    && |frame| == FRAME_HEADER_BYTES + |payload|
    && ReadUInt32(order, frame[..FRAME_HEADER_BYTES]) == |payload|
    && frame[FRAME_HEADER_BYTES..] == payload
  }

  method EncodeFrame(order: Endianness, payload: seq<byte>) returns (frame: seq<byte>)
    requires |payload| < UINT32_LIMIT
    ensures IsFrameOf(order, frame, payload)
  {
    var header := new byte[FRAME_HEADER_BYTES];
    WriteUInt32(order, header, |payload|);
    frame := header[..] + payload;
    assert frame[..FRAME_HEADER_BYTES] == header[..];
  }

  // One look at the front of a stream.
  datatype Front =
    | Incomplete                                    // the header or the payload has not fully arrived
    | Oversize                                      // the header announces more than MAX_MESSAGE_BYTES
    | Frame(payload: seq<byte>, after: seq<byte>)

  function FrontOf(order: Endianness, s: seq<byte>): (f: Front)
    ensures f.Frame? ==> |s| == FRAME_HEADER_BYTES + |f.payload| + |f.after|
    ensures f.Incomplete? ==> |s| < FRAME_HEADER_BYTES + MAX_MESSAGE_BYTES
  {
    if |s| < FRAME_HEADER_BYTES then Incomplete
    else
      var length := ReadUInt32(order, s[..FRAME_HEADER_BYTES]);
      if length > MAX_MESSAGE_BYTES then Oversize
      else if |s| < FRAME_HEADER_BYTES + length then Incomplete
      else Frame(s[FRAME_HEADER_BYTES..FRAME_HEADER_BYTES + length], s[FRAME_HEADER_BYTES + length..])
  }

  // The frames at the front of a stream, what is left, and whether the scan
  // stopped at an oversize header.
  datatype Scan = Scan(frames: seq<seq<byte>>, rest: seq<byte>, oversize: bool)

  function ScanStream(order: Endianness, s: seq<byte>): Scan
    decreases |s|
  {
    match FrontOf(order, s)
    case Incomplete => Scan([], s, false)
    case Oversize => Scan([], s, true)
    case Frame(payload, after) =>
      var tail := ScanStream(order, after);
      Scan([payload] + tail.frames, tail.rest, tail.oversize)
  }

  datatype Decoded = Decoded(messages: seq<seq<byte>>, remaining: seq<byte>)

  // How far a scan of buffer has come: these messages before offset, the rest still to read.
  ghost predicate ReadUpTo(order: Endianness, buffer: seq<byte>, offset: nat, messages: seq<seq<byte>>) {
    && offset <= |buffer|
    && var whole, ahead := ScanStream(order, buffer), ScanStream(order, buffer[offset..]);
       whole == Scan(messages + ahead.frames, ahead.rest, ahead.oversize)
  }

  lemma ReadOn(order: Endianness, buffer: seq<byte>, offset: nat, messages: seq<seq<byte>>)
    requires ReadUpTo(order, buffer, offset, messages)
    ensures match FrontOf(order, buffer[offset..])
            case Incomplete => ScanStream(order, buffer) == Scan(messages, buffer[offset..], false)
            case Oversize => ScanStream(order, buffer).oversize
            case Frame(payload, after) =>
              after == buffer[|buffer| - |after|..] ==>
                ReadUpTo(order, buffer, |buffer| - |after|, messages + [payload])
  {
    hide FrontOf;
  }

  method DecodeFrames(order: Endianness, buffer: seq<byte>) returns (r: Option<Decoded>)
    ensures var scan := ScanStream(order, buffer);
            r == if scan.oversize then None else Some(Decoded(scan.frames, scan.rest))
  {
    hide FrontOf, ReadUInt32, ScanStream;
    var offset := 0;
    var messages: seq<seq<byte>> := [];
    assert ReadUpTo(order, buffer, 0, []) by { assert buffer[0..] == buffer; }
    hide ReadUpTo;
    while |buffer| - offset >= FRAME_HEADER_BYTES
      invariant 0 <= offset <= |buffer|
      invariant ReadUpTo(order, buffer, offset, messages)
      decreases |buffer| - offset
    {
      FrontAtOffset(order, buffer, offset);
      ReadOn(order, buffer, offset, messages);
      var length := ReadUInt32(order, buffer[offset..offset + FRAME_HEADER_BYTES]);
      if length > MAX_MESSAGE_BYTES {
        return None;
      }
      var frameLength := FRAME_HEADER_BYTES + length;
      if |buffer| - offset < frameLength {
        break;
      }
      messages := messages + [buffer[offset + FRAME_HEADER_BYTES..offset + frameLength]];
      offset := offset + frameLength;
    }
    FrontAtOffset(order, buffer, offset);
    ReadOn(order, buffer, offset, messages);
    r := Some(Decoded(messages, buffer[offset..]));
  }

  // The look at the stream from an offset, in terms of the buffer itself.
  lemma FrontAtOffset(order: Endianness, buffer: seq<byte>, offset: nat)
    requires offset <= |buffer|
    ensures var front := FrontOf(order, buffer[offset..]);
            if |buffer| - offset < FRAME_HEADER_BYTES then front == Incomplete
            else
              var length := ReadUInt32(order, buffer[offset..offset + FRAME_HEADER_BYTES]);
              var payloadAt := offset + FRAME_HEADER_BYTES;
              if length > MAX_MESSAGE_BYTES then front == Oversize
              else if |buffer| - payloadAt < length then front == Incomplete
              else front == Frame(buffer[payloadAt..payloadAt + length], buffer[payloadAt + length..])
  {
    hide ReadUInt32;
    var suffix := buffer[offset..];
    if |suffix| >= FRAME_HEADER_BYTES {
      assert buffer[offset..offset + FRAME_HEADER_BYTES] == suffix[..FRAME_HEADER_BYTES];
      var cut := FRAME_HEADER_BYTES + ReadUInt32(order, suffix[..FRAME_HEADER_BYTES]);
      if cut <= |suffix| {
        assert suffix[FRAME_HEADER_BYTES..cut] == buffer[offset + FRAME_HEADER_BYTES..offset + cut];
        assert suffix[cut..] == buffer[offset + cut..];
      }
    }
  }

  // ---- What a scan promises about the stream it read ----

  function Concat(parts: seq<seq<byte>>): seq<byte> {
    if parts == [] then [] else parts[0] + Concat(parts[1..])
  }

  // The outputs of a sequence of EncodeFrame calls, one per payload.
  ghost predicate IsFrameSequence(order: Endianness, frames: seq<seq<byte>>, payloads: seq<seq<byte>>) {
    && |frames| == |payloads|
    && forall i :: 0 <= i < |frames| ==> IsFrameOf(order, frames[i], payloads[i])
  }

  lemma FrontOfFrame(order: Endianness, frame: seq<byte>, payload: seq<byte>, after: seq<byte>)
    requires IsFrameOf(order, frame, payload) && |payload| <= MAX_MESSAGE_BYTES
    ensures FrontOf(order, frame + after) == Frame(payload, after)
  {
  }

  // Concatenated encoder output decodes to exactly its payloads, in order, and
  // the scan goes on with whatever follows it in the stream.
  lemma {:induction false} EncodedStreamDecodes(
    order: Endianness, frames: seq<seq<byte>>, payloads: seq<seq<byte>>, after: seq<byte>)
    requires IsFrameSequence(order, frames, payloads)
    requires forall i :: 0 <= i < |payloads| ==> |payloads[i]| <= MAX_MESSAGE_BYTES
    ensures var tail := ScanStream(order, after);
            ScanStream(order, Concat(frames) + after) == Scan(payloads + tail.frames, tail.rest, tail.oversize)
    decreases |frames|
  {
    hide FrontOf, IsFrameOf;
    if frames == [] {
      assert Concat(frames) + after == after;
    } else {
      var next := Concat(frames[1..]) + after;
      assert Concat(frames) + after == frames[0] + next;
      FrontOfFrame(order, frames[0], payloads[0], next);
      EncodedStreamDecodes(order, frames[1..], payloads[1..], after);
    }
  }

  lemma FrontResumes(order: Endianness, a: seq<byte>, b: seq<byte>)
    ensures FrontOf(order, a).Oversize? ==> FrontOf(order, a + b).Oversize?
    ensures FrontOf(order, a).Frame? ==>
              FrontOf(order, a + b) == Frame(FrontOf(order, a).payload, FrontOf(order, a).after + b)
  {
    if |a| >= FRAME_HEADER_BYTES {
      assert (a + b)[..FRAME_HEADER_BYTES] == a[..FRAME_HEADER_BYTES];
      var cut := FRAME_HEADER_BYTES + ReadUInt32(order, a[..FRAME_HEADER_BYTES]);
      if cut <= |a| {
        assert (a + b)[FRAME_HEADER_BYTES..cut] == a[FRAME_HEADER_BYTES..cut];
        assert (a + b)[cut..] == a[cut..] + b;
      }
    }
  }

  // A scan resumed: what was found first, then what the rest and the new bytes give.
  function Resumed(first: Scan, more: Scan): Scan {
    Scan(first.frames + more.frames, more.rest, more.oversize)
  }

  lemma ResumedAfterFrame(payload: seq<byte>, tail: Scan, more: Scan)
    ensures var first := Scan([payload] + tail.frames, tail.rest, tail.oversize);
            Resumed(first, more) == Scan([payload] + Resumed(tail, more).frames, more.rest, more.oversize)
  {
  }

  // Scanning a longer stream is scanning the first part and going on from what it left.
  lemma {:induction false} ScanResumes(order: Endianness, a: seq<byte>, b: seq<byte>)
    ensures var first, whole := ScanStream(order, a), ScanStream(order, a + b);
            if first.oversize then whole.oversize && whole.frames == first.frames
            else whole == Resumed(first, ScanStream(order, first.rest + b))
    decreases |a|
  {
    hide FrontOf;
    FrontResumes(order, a, b);
    match FrontOf(order, a)
    case Oversize =>
    case Incomplete =>
      assert ScanStream(order, a) == Scan([], a, false);
      assert [] + ScanStream(order, a + b).frames == ScanStream(order, a + b).frames;
    case Frame(payload, after) =>
      ScanResumes(order, after, b);
      hide Resumed;
      var tail := ScanStream(order, after);
      ResumedAfterFrame(payload, tail, ScanStream(order, tail.rest + b));
      if !tail.oversize {
        assert Resumed(tail, ScanStream(order, tail.rest + b)) == ScanStream(order, after + b);
      }
  }

  lemma FrameAtFront(order: Endianness, s: seq<byte>) returns (frame: seq<byte>)
    requires FrontOf(order, s).Frame?
    ensures IsFrameOf(order, frame, FrontOf(order, s).payload)
    ensures s == frame + FrontOf(order, s).after
  {
    hide ReadUInt32;
    frame := s[..FRAME_HEADER_BYTES + |FrontOf(order, s).payload|];
    assert frame[..FRAME_HEADER_BYTES] == s[..FRAME_HEADER_BYTES];
  }

  // Bytes are neither lost nor invented: a scan partitions the stream into the
  // frames it reports and its rest, and what it retains is shorter than one maximal frame.
  lemma {:induction false} ScanPartitions(order: Endianness, s: seq<byte>) returns (frames: seq<seq<byte>>)
    ensures IsFrameSequence(order, frames, ScanStream(order, s).frames)
    ensures s == Concat(frames) + ScanStream(order, s).rest
    ensures !ScanStream(order, s).oversize ==> |ScanStream(order, s).rest| < FRAME_HEADER_BYTES + MAX_MESSAGE_BYTES
    decreases |s|
  {
    hide FrontOf, IsFrameOf;
    if FrontOf(order, s).Frame? {
      var first := FrameAtFront(order, s);
      var tail := ScanPartitions(order, FrontOf(order, s).after);
      frames := [first] + tail;
    } else {
      frames := [];
    }
  }
}
