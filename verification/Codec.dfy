// src/codec.cpp, with the batch parser and frame builder of analysis/probes/mongoose_wire.py beside it.
module Codec {
  import opened Bytes

  const MAX_BODY := 0x1800
  const KEY: nat := 0x51e6

  // Bitwise exclusive or.
  function Xor(a: nat, b: nat): nat
    decreases a + b
  {
    if a == 0 && b == 0 then 0 else (a % 2 + b % 2) % 2 + 2 * Xor(a / 2, b / 2)
  }

  function Pow2(k: nat): nat {
    if k == 0 then 1 else 2 * Pow2(k - 1)
  }

  lemma {:induction false} XorBound(a: nat, b: nat, k: nat)
    requires a < Pow2(k) && b < Pow2(k)
    ensures Xor(a, b) < Pow2(k)
  {
    if k > 0 {
      XorBound(a / 2, b / 2, k - 1);
    }
  }

  lemma {:induction false} XorInvolutive(a: nat, b: nat)
    ensures Xor(Xor(a, b), b) == a
    decreases a + b
  {
    if a != 0 || b != 0 {
      XorStep(a, b);
      XorInvolutive(a / 2, b / 2);
      XorStep(Xor(a, b), b);
      XorAgain(a % 2, b % 2);
    }
  }

  lemma XorStep(a: nat, b: nat)
    ensures Xor(a, b) % 2 == (a % 2 + b % 2) % 2 && Xor(a, b) / 2 == Xor(a / 2, b / 2)
  {
  }

  lemma XorAgain(i: nat, j: nat)
    requires i < 2 && j < 2
    ensures ((i + j) % 2 + j) % 2 == i
  {
  }

  // Bit by bit, the sum without carry.
  lemma {:induction false} XorBits(a: nat, b: nat, k: nat)
    ensures Bit(Xor(a, b), k) == (Bit(a, k) + Bit(b, k)) % 2
  {
    XorStep(a, b);
    if k > 0 { XorBits(a / 2, b / 2, k - 1); }
  }

  lemma CheckBound(n: u16)
    ensures Xor(n, KEY) < 0x1_0000
  {
    assert Pow2(4) == 16 && Pow2(8) == 16 * Pow2(4) && Pow2(12) == 16 * Pow2(8) && Pow2(16) == 16 * Pow2(12);
    XorBound(n, KEY, 16);
  }

  // The second header word: the length under the fixed key.
  function Check(n: u16): u16 {
    CheckBound(n);
    Xor(n, KEY)
  }

  // The batch parser undoes the key on the second word, the driver applies it to the first.
  lemma CheckEitherWay(n: u16, c: u16)
    ensures Xor(c, KEY) == n <==> c == Check(n)
  {
    XorInvolutive(n, KEY);
    XorInvolutive(c, KEY);
  }

  predicate HeaderOk(b: Bytes)
    requires |b| >= 4
  {
    var n := Le16(b, 0);
    n != 0 && n <= MAX_BODY && Le16(b, 2) == Check(n)
  }

  // ---------------------------------------------------------------- the encoder

  predicate Encodable(body: Bytes) {
    0 < |body| <= MAX_BODY
  }

  // None is the source's invalid_argument.
  method EncodeChecked(body: Bytes) returns (wire: Option<Bytes>)
    ensures wire.Some? <==> 0 < |body| <= 6144
    ensures wire.Some? ==> Deframe(wire.value) == Parse([body], 0, [])
  {
    if |body| == 0 || |body| > MAX_BODY { return None; }
    EncodeDecodes(body, []);
    assert Encode(body) + [] == Encode(body);
    wire := Some(Encode(body));
  }

  function Encode(body: Bytes): (wire: Bytes)
    requires Encodable(body)
  {
    Word(|body|) + Word(Check(|body|)) + body
  }

  // The octets on the wire: the length, the length under the key 0x51e6 bit by bit, and the body.
  lemma FrameLayout(body: Bytes, k: nat)
    requires Encodable(body) && k < 16
    ensures var wire := Encode(body);
            && |wire| == 4 + |body| && Le16(wire, 0) == |body| && wire[4..] == body
            && Bit(Le16(wire, 2), k) == (Bit(|body|, k) + Bit(0x51e6, k)) % 2
  {
    hide Bit, Xor;
    var wire := Encode(body);
    assert Le16(wire, 0) == |body| && Le16(wire, 2) == Check(|body|);
    XorBits(|body|, KEY, k);
  }

  function EncodeAll(bodies: seq<Bytes>): Bytes
    requires forall b :: b in bodies ==> Encodable(b)
  {
    if bodies == [] then [] else Encode(bodies[0]) + EncodeAll(bodies[1..])
  }

  const BOARD_NODE: u16 := 1

  function ChannelNode(protocol: u16): u16 {
    (protocol * 256 + 1) % 0x1_0000
  }

  predicate Requestable(sequence: u16, payload: Bytes, destination: u16) {
    |payload| <= MAX_BODY - 12 && 0 < sequence <= 255 && destination != 0
  }

  function Request(opcode: u16, sequence: u16, payload: Bytes, destination: u16, chan: u16): (body: Bytes)
    requires Requestable(sequence, payload, destination)
    ensures |body| == 12 + |payload| && Encodable(body)
  {
    Word(destination) + Word(0) + Word(opcode) + Word(sequence) + Word(chan) + Word(0) + payload
  }

  // The probe's builder, header and message together.
  function Build(opcode: u16, sequence: u16, body: Bytes, dst: u16, src: u16, channel: u16): Bytes
    requires |body| <= 0xffff - 12
  {
    var payload := Word(dst) + Word(src) + Word(opcode) + Word(sequence) + Word(channel) + Word(0) + body;
    Word(|payload|) + Word(Check(|payload|)) + payload
  }

  // One request on the wire: the driver and the probe write the same octets, the batch parser returns the
  // request, and every field of it reads back.
  lemma RequestOnTheWire(opcode: u16, sequence: u16, payload: Bytes, destination: u16, chan: u16)
    requires Requestable(sequence, payload, destination)
    ensures var body := Request(opcode, sequence, payload, destination, chan);
            && Encodable(body)
            && Encode(body) == Build(opcode, sequence, payload, destination, 0, chan)
            && Deframe(Encode(body)) == Parse([body], 0, [])
            && Le16(body, 0) == destination && Le16(body, 2) == 0 && Le16(body, 4) == opcode
            && Le16(body, 6) == sequence && Le16(body, 8) == chan && Le16(body, 10) == 0 && body[12..] == payload
  {
    var body := Request(opcode, sequence, payload, destination, chan);
    EncodeDecodes(body, []);
    assert Encode(body) + [] == Encode(body);
  }

  // ---------------------------------------------------------------- the batch parser

  datatype Parse = Parse(frames: seq<Bytes>, slides: nat, rest: Bytes)

  function Deframe(b: Bytes): Parse
    decreases |b|
  {
    if |b| < 4 then Parse([], 0, b)
    else if !HeaderOk(b) then Then(SLID, Deframe(b[1..]))
    else if |b| < Le16(b, 0) + 4 then Parse([], 0, b)
    else Then(Emitted(b[4..Le16(b, 0) + 4]), Deframe(b[Le16(b, 0) + 4..]))
  }

  const SLID := Parse([], 1, [])

  function Emitted(body: Bytes): Parse {
    Parse([body], 0, [])
  }

  // What p parsed, then what q parsed of the stream after it.
  function Then(p: Parse, q: Parse): Parse {
    Parse(p.frames + q.frames, p.slides + q.slides, q.rest)
  }

  lemma ThenAssociates(p: Parse, q: Parse, r: Parse)
    ensures Then(Then(p, q), r) == Then(p, Then(q, r))
  {
    assert (p.frames + q.frames) + r.frames == p.frames + (q.frames + r.frames);
  }

  lemma ThenIs(p: Parse, q: Parse)
    ensures Then(p, q) == Parse(p.frames + q.frames, p.slides + q.slides, q.rest)
  {
  }

  lemma ThenNothing(p: Parse, rest: Bytes)
    ensures Then(p, Parse([], 0, rest)) == p.(rest := rest)
  {
    assert p.frames + [] == p.frames;
  }

  lemma NothingThen(p: Parse, rest: Bytes)
    ensures Then(Parse([], 0, rest), p) == p
  {
    assert [] + p.frames == p.frames;
  }

  // A header is judged by its own four octets.
  lemma HeaderAppend(a: Bytes, c: Bytes)
    requires |a| >= 4
    ensures HeaderOk(a + c) == HeaderOk(a) && Le16(a + c, 0) == Le16(a, 0)
  {
    assert (a + c)[0] == a[0] && (a + c)[1] == a[1] && (a + c)[2] == a[2] && (a + c)[3] == a[3];
  }

  // One turn of either parsing loop, seen from what has been parsed so far.
  lemma ParseStep(sofar: Parse, b: Bytes)
    requires |b| >= 4
    ensures !HeaderOk(b) ==>
              Then(sofar, Deframe(b)) == Then(sofar.(slides := sofar.slides + 1), Deframe(b[1..]))
    ensures HeaderOk(b) && |b| >= Le16(b, 0) + 4 ==>
              Then(sofar, Deframe(b))
              == Then(sofar.(frames := sofar.frames + [b[4..Le16(b, 0) + 4]]), Deframe(b[Le16(b, 0) + 4..]))
  {
    if !HeaderOk(b) {
      ThenAssociates(sofar, SLID, Deframe(b[1..]));
      assert sofar.frames + [] == sofar.frames;
    } else if |b| >= Le16(b, 0) + 4 {
      ThenAssociates(sofar, Emitted(b[4..Le16(b, 0) + 4]), Deframe(b[Le16(b, 0) + 4..]));
    }
  }

  // Where either loop stops, nothing more parses.
  lemma Incomplete(b: Bytes)
    requires |b| < 4 || (HeaderOk(b) && |b| < Le16(b, 0) + 4)
    ensures Deframe(b) == Parse([], 0, b)
  {
  }

  // The header test of the batch parser, on the stream from an offset.
  lemma HeaderAt(buffer: Bytes, offset: nat)
    requires offset + 4 <= |buffer|
    ensures var length, check, tail := Le16(buffer, offset), Le16(buffer, offset + 2), buffer[offset..];
            && length == Le16(tail, 0)
            && (HeaderOk(tail) <==> !(length == 0 || length > MAX_BODY || Xor(check, KEY) != length))
  {
    var tail := buffer[offset..];
    assert tail[0] == buffer[offset] && tail[1] == buffer[offset + 1];
    assert tail[2] == buffer[offset + 2] && tail[3] == buffer[offset + 3];
    CheckEitherWay(Le16(tail, 0), Le16(tail, 2));
  }

  method DeframeBatch(buffer: Bytes) returns (payloads: seq<Bytes>, slides: nat, remainder: Bytes)
    ensures Parse(payloads, slides, remainder) == Deframe(buffer)
  {
    hide Deframe, HeaderOk, Xor, Check, Then;
    payloads, slides := [], 0;
    var offset := 0;
    assert buffer[0..] == buffer;
    NothingThen(Deframe(buffer), []);
    while offset + 4 <= |buffer|
      invariant 0 <= offset <= |buffer|
      invariant Deframe(buffer) == Then(Parse(payloads, slides, []), Deframe(buffer[offset..]))
      decreases |buffer| - offset
    {
      var length, check := Le16(buffer, offset), Le16(buffer, offset + 2);
      ghost var tail := buffer[offset..];
      HeaderAt(buffer, offset);
      ParseStep(Parse(payloads, slides, []), tail);
      if length == 0 || length > MAX_BODY || Xor(check, KEY) != length {
        assert tail[1..] == buffer[offset + 1..];
        offset, slides := offset + 1, slides + 1;
        continue;
      }
      if offset + 4 + length > |buffer| {
        break;
      }
      assert tail[4..length + 4] == buffer[offset + 4..offset + 4 + length];
      assert tail[length + 4..] == buffer[offset + 4 + length..];
      payloads := payloads + [buffer[offset + 4..offset + 4 + length]];
      offset := offset + 4 + length;
    }
    remainder := buffer[offset..];
    Incomplete(remainder);
    ThenNothing(Parse(payloads, slides, []), remainder);
  }

  // Parsing a stream in two parts, keeping the first part's remainder, is parsing it whole.
  lemma {:induction false} DeframeAppend(a: Bytes, c: Bytes)
    ensures Deframe(a + c) == Then(Deframe(a), Deframe(Deframe(a).rest + c))
    decreases |a|
  {
    if |a| < 4 {
      NothingThen(Deframe(a + c), a);
    } else if !HeaderOk(a) {
      HeaderAppend(a, c);
      assert (a + c)[1..] == a[1..] + c;
      DeframeAppend(a[1..], c);
      ThenAssociates(SLID, Deframe(a[1..]), Deframe(Deframe(a[1..]).rest + c));
    } else if |a| < Le16(a, 0) + 4 {
      NothingThen(Deframe(a + c), a);
    } else {
      var n := Le16(a, 0);
      HeaderAppend(a, c);
      assert (a + c)[4..n + 4] == a[4..n + 4];
      assert (a + c)[n + 4..] == a[n + 4..] + c;
      DeframeAppend(a[n + 4..], c);
      ThenAssociates(Emitted(a[4..n + 4]), Deframe(a[n + 4..]), Deframe(Deframe(a[n + 4..]).rest + c));
    }
  }

  lemma {:induction false} DeframeRest(b: Bytes)
    ensures |Deframe(b).rest| <= |b| && |Deframe(b).rest| <= MAX_BODY + 3
    ensures Deframe(Deframe(b).rest) == Parse([], 0, Deframe(b).rest)
    decreases |b|
  {
    if |b| < 4 {
    } else if !HeaderOk(b) {
      DeframeRest(b[1..]);
    } else if |b| >= Le16(b, 0) + 4 {
      DeframeRest(b[Le16(b, 0) + 4..]);
    }
  }

  lemma EncodeDecodes(body: Bytes, tail: Bytes)
    requires Encodable(body)
    ensures Deframe(Encode(body) + tail) == Then(Parse([body], 0, []), Deframe(tail))
  {
    var b := Encode(body) + tail;
    assert Le16(b, 0) == |body| && Le16(b, 2) == Check(|body|);
    assert b[4..|body| + 4] == body;
    assert b[|body| + 4..] == tail;
  }

  // A decoder in step with its peer: any list of encoded bodies comes back, nothing discarded.
  lemma {:induction false} EncodedStreamDecodes(bodies: seq<Bytes>)
    requires forall b :: b in bodies ==> Encodable(b)
    ensures Deframe(EncodeAll(bodies)) == Parse(bodies, 0, [])
  {
    if bodies != [] {
      EncodedStreamDecodes(bodies[1..]);
      EncodeDecodes(bodies[0], EncodeAll(bodies[1..]));
    }
  }

  lemma {:induction false} EncodeAllAppend(a: seq<Bytes>, b: seq<Bytes>)
    requires forall x :: x in a || x in b ==> Encodable(x)
    ensures EncodeAll(a + b) == EncodeAll(a) + EncodeAll(b)
  {
    if a == [] {
      assert a + b == b;
    } else {
      assert (a + b)[1..] == a[1..] + b;
      EncodeAllAppend(a[1..], b);
    }
  }

  // Cut such a stream anywhere: what has arrived so far decodes to the first bodies, in order, and no octet
  // has been discarded.
  lemma CutStreamDecodes(bodies: seq<Bytes>, cut: nat)
    requires forall b :: b in bodies ==> Encodable(b)
    requires cut <= |EncodeAll(bodies)|
    ensures var p := Deframe(EncodeAll(bodies)[..cut]);
            p.slides == 0 && p.frames <= bodies
  {
    hide Deframe, EncodeAll;
    var stream := EncodeAll(bodies);
    EncodedStreamDecodes(bodies);
    DeframeAppend(stream[..cut], stream[cut..]);
    assert stream[..cut] + stream[cut..] == stream;
  }

  // ---------------------------------------------------------------- what a stream is made of

  datatype Piece = Slide(octet: byte) | Frame(body: Bytes)

  predicate WellFormed(pieces: seq<Piece>) {
    forall p :: p in pieces && p.Frame? ==> Encodable(p.body)
  }

  function Render(pieces: seq<Piece>): Bytes
    requires WellFormed(pieces)
  {
    if pieces == [] then []
    else (match pieces[0] case Slide(o) => [o] case Frame(b) => Encode(b)) + Render(pieces[1..])
  }

  function FramesOf(pieces: seq<Piece>): seq<Bytes> {
    if pieces == [] then []
    else (if pieces[0].Frame? then [pieces[0].body] else []) + FramesOf(pieces[1..])
  }

  function SlidesOf(pieces: seq<Piece>): nat {
    if pieces == [] then 0 else (if pieces[0].Slide? then 1 else 0) + SlidesOf(pieces[1..])
  }

  // Every octet is accounted for: the input is the discarded octets and the encodings of the emitted frames,
  // in order, and then the remainder.
  lemma {:induction false} StreamDecomposes(b: Bytes) returns (pieces: seq<Piece>)
    ensures WellFormed(pieces)
    ensures b == Render(pieces) + Deframe(b).rest
    ensures FramesOf(pieces) == Deframe(b).frames && SlidesOf(pieces) == Deframe(b).slides
    decreases |b|
  {
    pieces := [];
    if |b| >= 4 && (!HeaderOk(b) || |b| >= Le16(b, 0) + 4) {
      var n := if HeaderOk(b) then Le16(b, 0) + 4 else 1;
      var tail := StreamDecomposes(b[n..]);
      if HeaderOk(b) {
        EncodedBack(b);
      }
      pieces := Prefixed(if HeaderOk(b) then Frame(b[4..n]) else Slide(b[0]), tail);
      Rejoin(b, n, Render(tail), Deframe(b[n..]).rest);
    }
  }

  lemma Rejoin(b: Bytes, n: nat, mid: Bytes, end: Bytes)
    requires n <= |b| && b[n..] == mid + end
    ensures b == (b[..n] + mid) + end
  {
    assert b == b[..n] + b[n..];
  }

  lemma Prefixed(p: Piece, tail: seq<Piece>) returns (pieces: seq<Piece>)
    requires WellFormed(tail) && (p.Frame? ==> Encodable(p.body))
    ensures pieces == [p] + tail && WellFormed(pieces)
    ensures Render(pieces) == (match p case Slide(o) => [o] case Frame(b) => Encode(b)) + Render(tail)
    ensures FramesOf(pieces) == (if p.Frame? then [p.body] else []) + FramesOf(tail)
    ensures SlidesOf(pieces) == (if p.Slide? then 1 else 0) + SlidesOf(tail)
  {
    pieces := [p] + tail;
    assert pieces[1..] == tail;
  }

  // A whole frame with a good header is the encoding of its body.
  lemma EncodedBack(b: Bytes)
    requires |b| >= 4 && HeaderOk(b) && |b| >= Le16(b, 0) + 4
    ensures Encode(b[4..Le16(b, 0) + 4]) == b[..Le16(b, 0) + 4]
  {
    hide Xor, Deframe;
    var n := Le16(b, 0);
    assert Word(n) == [b[0], b[1]];
    assert Word(Check(n)) == [b[2], b[3]];
    assert b[..n + 4] == [b[0], b[1]] + [b[2], b[3]] + b[4..n + 4];
  }

  // ---------------------------------------------------------------- the incremental decoder

  // What a feed leaves behind: nothing more can be parsed until another octet arrives.
  ghost predicate Settled(buffer: Bytes) {
    Deframe(buffer) == Parse([], 0, buffer)
  }

  class Decoder {
    var buffer: Bytes
    var discarded: nat

    ghost predicate Valid()
      reads this
    {
      Settled(buffer) && |buffer| <= MAX_BODY + 3
    }

    constructor ()
      ensures Valid() && buffer == [] && discarded == 0
    {
      buffer, discarded := [], 0;
    }

    method Feed(bytes: Bytes) returns (frames: seq<Bytes>)
      requires Valid()
      modifies this
      ensures Valid()
      ensures var p := Deframe(old(buffer) + bytes);
              frames == p.frames && buffer == p.rest && discarded == old(discarded) + p.slides
    {
      hide Deframe, Then;
      frames := [];
      ghost var early := buffer;
      assert early + bytes[..0] == early;
      for i := 0 to |bytes|
        invariant Settled(buffer) && discarded >= old(discarded)
        invariant Deframe(early + bytes[..i]) == Parse(frames, discarded - old(discarded), buffer)
      {
        DeframeAppend(early + bytes[..i], [bytes[i]]);
        assert early + bytes[..i + 1] == (early + bytes[..i]) + [bytes[i]];
        ghost var sofar := Parse(frames, discarded - old(discarded), buffer);
        buffer := buffer + [bytes[i]];
        ThenIs(sofar, Deframe(buffer));
        var more := TakeFrames();
        frames := frames + more;
        DeframeRest(early + bytes[..i + 1]);
      }
      DeframeRest(early + bytes);
      assert bytes[..|bytes|] == bytes;
    }

    // The inner loop: everything that is complete is taken out of the buffer.
    method TakeFrames() returns (frames: seq<Bytes>)
      modifies this
      ensures var p := Deframe(old(buffer));
              frames == p.frames && buffer == p.rest && discarded == old(discarded) + p.slides
    {
      hide Deframe, Then, Check;
      frames := [];
      ghost var before := discarded;
      NothingThen(Deframe(buffer), []);
      while |buffer| >= 4
        invariant discarded >= before
        invariant Deframe(old(buffer)) == Then(Parse(frames, discarded - before, []), Deframe(buffer))
        decreases |buffer|
      {
        ParseStep(Parse(frames, discarded - before, []), buffer);
        var n := Le16(buffer, 0);
        if n == 0 || n > MAX_BODY || Le16(buffer, 2) != Check(n) {
          buffer := buffer[1..];
          discarded := discarded + 1;
          continue;
        }
        if |buffer| < n + 4 { break; }
        frames := frames + [buffer[4..n + 4]];
        buffer := buffer[n + 4..];
      }
      Incomplete(buffer);
      ThenNothing(Parse(frames, discarded - before, []), buffer);
    }
  }

  // ---------------------------------------------------------------- whole runs of the decoder

  // What Decoder.Feed, called once per chunk, has returned, discarded and kept.
  function FeedAll(buffer: Bytes, chunks: seq<Bytes>): Parse
    decreases |chunks|
  {
    if chunks == [] then Parse([], 0, buffer)
    else
      var p := Deframe(buffer + chunks[0]);
      Then(p, FeedAll(p.rest, chunks[1..]))
  }

  // However the stream is cut, the incremental decoder has done exactly what the batch parser does with the
  // whole of it, and holds less than one largest frame.
  lemma {:induction false} StreamingIsBatch(buffer: Bytes, chunks: seq<Bytes>)
    requires Settled(buffer)
    ensures FeedAll(buffer, chunks) == Deframe(buffer + Flatten(chunks))
    ensures |FeedAll(buffer, chunks).rest| <= MAX_BODY + 3
    decreases |chunks|
  {
    DeframeRest(buffer + Flatten(chunks));
    if chunks == [] {
      assert buffer + [] == buffer;
    } else {
      var p := Deframe(buffer + chunks[0]);
      DeframeRest(buffer + chunks[0]);
      StreamingIsBatch(p.rest, chunks[1..]);
      DeframeAppend(buffer + chunks[0], Flatten(chunks[1..]));
      assert buffer + Flatten(chunks) == (buffer + chunks[0]) + Flatten(chunks[1..]);
    }
  }

  // The two together: chunks of a stream of encoded bodies give back those bodies and nothing else.
  lemma ChunkedStreamDecodes(bodies: seq<Bytes>, chunks: seq<Bytes>)
    requires forall b :: b in bodies ==> Encodable(b)
    requires Flatten(chunks) == EncodeAll(bodies)
    ensures FeedAll([], chunks) == Parse(bodies, 0, [])
  {
    StreamingIsBatch([], chunks);
    assert [] + Flatten(chunks) == Flatten(chunks);
    EncodedStreamDecodes(bodies);
  }
}
