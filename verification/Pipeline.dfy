// The whole receive path, composed: octets from the adapter in arbitrary chunks, through the decoder, the
// session, the receiver and the reassembler, to what a read returns.
module Pipeline {
  import opened Bytes
  import Codec
  import I = IsoTp
  import Can
  import R = Reading
  import S = Session

  // ---------------------------------------------------------------- octets to received bodies

  function Receives(bodies: seq<Bytes>): seq<Can.Event> {
    seq(|bodies|, i requires 0 <= i < |bodies| => Can.EReceive(bodies[i]))
  }

  // The reader thread is handed the chunks one after the other.
  function Feeds(s: S.Sess, chunks: seq<Bytes>): S.Sess
    requires S.Shaped(s)
    decreases |chunks|
  {
    if chunks == [] then s else Feeds(S.Receive(s, chunks[0]), chunks[1..])
  }

  lemma {:induction false} DeliveredInOrder(s: S.Sess, bodies: seq<Bytes>)
    requires S.Shaped(s) && s.receiver.Some?
    ensures S.DeliverAll(s, bodies).receiver == Some(Can.Run(s.receiver.value, Receives(bodies)))
    decreases |bodies|
  {
    hide Can.Step;
    if bodies != [] {
      assert Receives(bodies)[1..] == Receives(bodies[1..]);
      DeliveredInOrder(S.Deliver(s, bodies[0]), bodies[1..]);
    }
  }

  // However the octets are cut, the receiver sees exactly the frames of the whole stream, in order.
  lemma {:induction false} ReceiverSeesFrames(s: S.Sess, chunks: seq<Bytes>)
    requires S.Valid(s) && s.receiver.Some?
    ensures Feeds(s, chunks).receiver
         == Some(Can.Run(s.receiver.value, Receives(Codec.FeedAll(s.buffer, chunks).frames)))
    decreases |chunks|
  {
    hide Can.Step, Can.Run, Codec.Deframe, S.DeliverAll;
    if chunks == [] {
      RunNothing(s.receiver.value);
    } else {
      var p := Codec.Deframe(s.buffer + chunks[0]);
      var s1 := S.Receive(s, chunks[0]);
      S.ReceiveValid(s, chunks[0]);
      DeliveredInOrder(s.(buffer := p.rest), p.frames);
      ReceiverSeesFrames(s1, chunks[1..]);
      var later := Codec.FeedAll(p.rest, chunks[1..]).frames;
      R.RunAppend(s.receiver.value, Receives(p.frames), Receives(later));
      assert Receives(p.frames + later) == Receives(p.frames) + Receives(later);
    }
  }

  lemma RunNothing(w: Can.World)
    requires |w.log.open| == |w.rx.pending|
    ensures Can.Run(w, Receives([])) == w
  {
  }

  // ---------------------------------------------------------------- received bodies to queued messages

  // One frame the adapter reports on an ISO15765 channel.
  datatype Inbound = Inbound(body: Bytes, timestamp: u32, frame: Bytes)

  predicate Proper(x: Inbound) {
    && |x.body| == 24 + |x.frame| && 4 <= |x.frame| <= 12
    && Le16(x.body, 0) == 0 && Le16(x.body, 2) == 0x0601 && Le16(x.body, 4) == 9
    && Le32(x.body, 16) == x.timestamp && Le16(x.body, 22) == |x.frame| && x.body[24..] == x.frame
  }

  ghost predicate AllProper(xs: seq<Inbound>) {
    forall x :: x in xs ==> Proper(x)
  }

  function Frames(xs: seq<Inbound>): seq<Bytes> {
    seq(|xs|, i requires 0 <= i < |xs| => xs[i].frame)
  }

  function BodiesOf(xs: seq<Inbound>): (bs: seq<Bytes>)
    ensures AllProper(xs) ==> forall b :: b in bs ==> Codec.Encodable(b)
  {
    if xs == [] then []
    else
      assert AllProper(xs) ==> Proper(xs[0]) && AllProper(xs[1..]);
      [xs[0].body] + BodiesOf(xs[1..])
  }

  // What these frames report, each report with its frame's timestamp.
  function Stamped(t: I.Table, xs: seq<Inbound>): seq<Can.Item>
    decreases |xs|
  {
    if xs == [] then []
    else Can.Lifted(I.Reported(t, xs[0].frame), xs[0].timestamp) + Stamped(I.After(t, xs[0].frame), xs[1..])
  }

  lemma {:induction false} OfferWithRoom(w: Can.World, items: seq<Can.Item>)
    requires |Can.Queue(w.rx)| + |items| <= Can.Capacity(w.rx)
    ensures Can.Offer(w, items).rx == Can.WithQueue(w.rx, Can.Queue(w.rx) + items)
    decreases |items|
  {
    var q := Can.Queue(w.rx);
    if items == [] {
      assert q + [] == q;
    } else {
      var v := w.(rx := Can.WithQueue(w.rx, q + [items[0]]), log := w.log.(arrived := w.log.arrived + [items[0]]));
      OfferWithRoom(v, items[1..]);
      assert (q + [items[0]]) + items[1..] == q + items;
    }
  }

  lemma InboundReceived(w: Can.World, x: Inbound)
    requires |w.log.open| == |w.rx.pending| && Proper(x)
    requires w.rx.protocol == Can.ISO15765 && w.rx.stopped == 0
    requires |w.rx.messages| + |I.Reported(w.rx.table, x.frame)| <= Can.MESSAGE_CAPACITY
    ensures Can.Step(w, Can.EReceive(x.body)).rx
         == w.rx.(table := I.After(w.rx.table, x.frame),
                  messages := w.rx.messages + Can.Lifted(I.Reported(w.rx.table, x.frame), x.timestamp))
  {
    var u := w.(rx := w.rx.(table := I.After(w.rx.table, x.frame)));
    OfferWithRoom(u, Can.Lifted(I.Reported(w.rx.table, x.frame), x.timestamp));
  }

  lemma {:induction false} InboundsReceived(w: Can.World, xs: seq<Inbound>)
    requires |w.log.open| == |w.rx.pending| && AllProper(xs)
    requires w.rx.protocol == Can.ISO15765 && w.rx.stopped == 0
    requires |w.rx.messages| + |Stamped(w.rx.table, xs)| <= Can.MESSAGE_CAPACITY
    ensures Can.Run(w, Receives(BodiesOf(xs))).rx
         == w.rx.(table := I.TableAfter(w.rx.table, Frames(xs)),
                  messages := w.rx.messages + Stamped(w.rx.table, xs))
    decreases |xs|
  {
    hide Can.Step, I.After, I.Reported, Proper;
    if xs == [] {
      assert w.rx.messages + [] == w.rx.messages;
    } else {
      InboundReceived(w, xs[0]);
      var w1 := Can.Step(w, Can.EReceive(xs[0].body));
      assert Receives(BodiesOf(xs))[1..] == Receives(BodiesOf(xs[1..]));
      assert Frames(xs)[1..] == Frames(xs[1..]);
      InboundsReceived(w1, xs[1..]);
      assert w.rx.messages + Stamped(w.rx.table, xs) == w1.rx.messages + Stamped(w1.rx.table, xs[1..]);
    }
  }

  // ---------------------------------------------------------------- one conversation among the others

  function OwnOf(xs: seq<Inbound>, id: u32): (own: seq<Inbound>)
    ensures forall x :: x in own ==> |x.frame| > 4
    ensures Frames(own) == I.Of(Frames(xs), id)
    decreases |xs|
  {
    if xs == [] then []
    else
      var rest := OwnOf(xs[1..], id);
      assert Frames(xs)[1..] == Frames(xs[1..]);
      if I.From(xs[0].frame, id) then
        assert Frames([xs[0]] + rest) == [xs[0].frame] + Frames(rest);
        [xs[0]] + rest
      else
        assert [] + I.Of(Frames(xs[1..]), id) == I.Of(Frames(xs[1..]), id);
        rest
  }

  function StampedConverse(open: Option<I.Assembly>, own: seq<Inbound>): seq<Can.Item>
    requires forall x :: x in own ==> |x.frame| > 4
    decreases |own|
  {
    if own == [] then []
    else
      var p := I.Converse(open, own[0].frame);
      Can.Lifted(p.outs, own[0].timestamp) + StampedConverse(p.open, own[1..])
  }

  // The queue entries that name an ID.
  function Named(items: seq<Can.Item>, id: Bytes): seq<Can.Item>
    requires |id| == 4
  {
    if items == [] then []
    else (if |items[0].data| >= 4 && items[0].data[..4] == id then [items[0]] else []) + Named(items[1..], id)
  }

  lemma {:induction false} NamedAppend(a: seq<Can.Item>, b: seq<Can.Item>, id: Bytes)
    requires |id| == 4
    ensures Named(a + b, id) == Named(a, id) + Named(b, id)
  {
    if a == [] {
      assert a + b == b;
    } else {
      assert (a + b)[1..] == a[1..] + b;
      NamedAppend(a[1..], b, id);
    }
  }

  lemma NamedReports(t: I.Table, x: Inbound, id: Bytes)
    requires I.Valid(t) && |id| == 4
    ensures var items := Can.Lifted(I.Reported(t, x.frame), x.timestamp);
            Named(items, id) == if I.From(x.frame, I.SourceId(id)) then items else []
  {
    I.ReportsNameTheirId(t, x.frame);
    var outs := I.Reported(t, x.frame);
    var items := Can.Lifted(outs, x.timestamp);
    if |x.frame| > 4 {
      I.SourceIdIsTheFirstFour(x.frame, id);
    }
    NamedAll(items, id, x.frame);
  }

  lemma {:induction false} NamedAll(items: seq<Can.Item>, id: Bytes, frame: Bytes)
    requires |id| == 4 && (items != [] ==> |frame| >= 4)
    requires forall m :: m in items ==> |m.data| >= 4 && m.data[..4] == frame[..4]
    ensures Named(items, id) == if items != [] && frame[..4] == id then items else []
  {
    if items != [] { NamedAll(items[1..], id, frame); }
  }

  // While its conversation is kept, an ID's entries in the queue are those of its own frames alone.
  lemma {:induction false} NamedIsOwn(t: I.Table, xs: seq<Inbound>, id: Bytes)
    requires I.Valid(t) && |id| == 4 && I.Kept(t, Frames(xs), I.SourceId(id))
    ensures Named(Stamped(t, xs), id)
         == StampedConverse(I.Lookup(t, I.SourceId(id)), OwnOf(xs, I.SourceId(id)))
    decreases |xs|
  {
    hide I.Converse, I.Evicts, I.Valid;
    if xs != [] {
      var source, f := I.SourceId(id), xs[0].frame;
      var t1 := I.After(t, f);
      assert Frames(xs)[0] == f && Frames(xs)[1..] == Frames(xs[1..]);
      I.AfterValid(t, f);
      NamedIsOwn(t1, xs[1..], id);
      NamedReports(t, xs[0], id);
      NamedAppend(Can.Lifted(I.Reported(t, f), xs[0].timestamp), Stamped(t1, xs[1..]), id);
      if I.From(f, source) {
        assert OwnOf(xs, source)[1..] == OwnOf(xs[1..], source);
      } else {
        I.OtherFrame(t, f, source);
        assert [] + Named(Stamped(t1, xs[1..]), id) == Named(Stamped(t1, xs[1..]), id);
      }
    }
  }

  lemma ConverseStep(open: Option<I.Assembly>, x: Inbound, rest: seq<Inbound>)
    requires |x.frame| > 4 && forall y :: y in rest ==> |y.frame| > 4
    ensures var p := I.Converse(open, x.frame);
            StampedConverse(open, [x] + rest) == Can.Lifted(p.outs, x.timestamp) + StampedConverse(p.open, rest)
  {
    assert ([x] + rest)[1..] == rest;
  }

  lemma {:induction false} StampedFollowers(a: I.Assembly, id: Bytes, rest: Bytes, pad: Bytes, own: seq<Inbound>)
    requires |id| == 4 && rest != [] && a.sequence < 16 && |a.message| >= 4
    requires 4 + a.expected == |a.message| + |rest|
    requires Frames(own) == I.Followers(id, rest, a.sequence, pad)
    ensures own != [] && forall x :: x in own ==> |x.frame| > 4
    ensures StampedConverse(Some(a), own) == [Can.Item(0, own[|own| - 1].timestamp, a.message + rest, 0)]
    decreases |rest|
  {
    hide I.Converse, StampedConverse, I.Followers;
    FramesLong(own, id, rest, a.sequence, pad);
    if |rest| <= 7 {
      StampedLast(a, id, rest, pad, own);
    } else {
      FirstFollower(own, id, rest, a.sequence, pad);
      assert own == [own[0]] + own[1..];
      I.FollowerStep(a, id, rest[..7], |rest|);
      ConverseStep(Some(a), own[0], own[1..]);
      var grown := a.(message := a.message + rest[..7], sequence := (a.sequence + 1) % 16);
      StampedFollowers(grown, id, rest[7..], pad, own[1..]);
      assert rest == rest[..7] + rest[7..];
      assert grown.message + rest[7..] == a.message + rest;
    }
  }

  lemma FirstFollower(own: seq<Inbound>, id: Bytes, rest: Bytes, sequence: nat, pad: Bytes)
    requires |id| == 4 && |rest| > 7 && sequence < 16
    requires Frames(own) == I.Followers(id, rest, sequence, pad)
    ensures own != [] && own[0].frame == id + [0x20 + sequence] + rest[..7]
    ensures Frames(own[1..]) == I.Followers(id, rest[7..], (sequence + 1) % 16, pad)
  {
    var first := id + [0x20 + sequence] + rest[..7];
    var later := I.Followers(id, rest[7..], (sequence + 1) % 16, pad);
    assert Frames(own) == [first] + later;
    assert |Frames(own)| == |own| && Frames(own)[0] == own[0].frame;
    assert Frames(own[1..]) == Frames(own)[1..] == later;
  }

  lemma StampedLast(a: I.Assembly, id: Bytes, rest: Bytes, pad: Bytes, own: seq<Inbound>)
    requires |id| == 4 && 0 < |rest| <= 7 && a.sequence < 16 && |a.message| >= 4
    requires 4 + a.expected == |a.message| + |rest|
    requires Frames(own) == I.Followers(id, rest, a.sequence, pad)
    ensures own != [] && forall x :: x in own ==> |x.frame| > 4
    ensures StampedConverse(Some(a), own) == [Can.Item(0, own[|own| - 1].timestamp, a.message + rest, 0)]
  {
    hide I.Converse, StampedConverse;
    FramesLong(own, id, rest, a.sequence, pad);
    assert |own| == 1 && own[0].frame == Frames(own)[0];
    I.FollowerStep(a, id, rest + pad, |rest|);
    assert (rest + pad)[..|rest|] == rest;
    ConverseStep(Some(a), own[0], []);
    assert own == [own[0]] + [];
    StampedNothing(None);
  }

  lemma StampedNothing(open: Option<I.Assembly>)
    ensures StampedConverse(open, []) == []
  {
  }

  lemma FramesLong(own: seq<Inbound>, id: Bytes, rest: Bytes, sequence: nat, pad: Bytes)
    requires |id| == 4 && rest != [] && sequence < 16
    requires Frames(own) == I.Followers(id, rest, sequence, pad)
    ensures own != [] && forall x :: x in own ==> |x.frame| > 4
  {
    forall x | x in own ensures |x.frame| > 4 {
      var i :| 0 <= i < |own| && own[i] == x;
      assert Frames(own)[i] in Frames(own);
    }
  }

  lemma FirstFrame(own: seq<Inbound>, id: Bytes, payload: Bytes, pad: Bytes)
    requires |id| == 4 && I.SEGMENTED_MINIMUM <= |payload| <= I.MAX_MESSAGE
    requires Frames(own) == I.Segment(id, payload, pad)
    ensures own != [] && own[0].frame == I.Segment(id, payload, pad)[0]
    ensures Frames(own[1..]) == I.Followers(id, payload[6..], 1, pad)
  {
    assert |Frames(own)| == |own| && Frames(own)[0] == own[0].frame;
    assert Frames(own[1..]) == Frames(own)[1..];
  }

  lemma StampedSegment(open: Option<I.Assembly>, id: Bytes, payload: Bytes, pad: Bytes, own: seq<Inbound>)
    requires |id| == 4 && I.SEGMENTED_MINIMUM <= |payload| <= I.MAX_MESSAGE
    requires Frames(own) == I.Segment(id, payload, pad)
    ensures own != [] && forall x :: x in own ==> |x.frame| > 4
    ensures StampedConverse(open, own)
         == [Can.Item(I.START_OF_MESSAGE, own[0].timestamp, id, 0),
             Can.Item(0, own[|own| - 1].timestamp, id + payload, 0)]
  {
    hide I.Converse, StampedConverse, I.Segment, I.Followers, I.Begin, I.Opens, Frames;
    FirstFrame(own, id, payload, pad);
    var f := own[0].frame;
    I.FirstSegment(id, payload, pad);
    I.FirstConverses(open, f);
    FramesLong(own[1..], id, payload[6..], 1, pad);
    StampedFollowers(I.Begin(f), id, payload[6..], pad, own[1..]);
    assert own == [own[0]] + own[1..];
    ConverseStep(open, own[0], own[1..]);
    assert payload == payload[..6] + payload[6..];
    assert (id + payload[..6]) + payload[6..] == id + payload;
  }

  // ---------------------------------------------------------------- end to end

  // The adapter reports a segmented message, its frames mixed with any others; the reports are encoded, strung
  // together and cut anywhere. If the queue has room and fewer than thirty-two other IDs open a conversation
  // from the message's first frame on, then of everything queued, what names this ID is the start-of-message
  // under the first frame's timestamp and the original message under the last frame's; and one read that asks
  // for enough returns the queue as it is.
  lemma ReceivePipeline(s: S.Sess, chunks: seq<Bytes>, xs: seq<Inbound>, id: Bytes, payload: Bytes, pad: Bytes,
                        requested: nat)
    requires S.Valid(s) && s.buffer == [] && s.receiver.Some? && AllProper(xs)
    requires Flatten(chunks) == Codec.EncodeAll(BodiesOf(xs))
    requires var rx := s.receiver.value.rx;
             && rx.protocol == Can.ISO15765 && rx.stopped == 0 && !rx.overflow && !rx.malformed
             && |rx.messages| + |Stamped(rx.table, xs)| <= Can.MESSAGE_CAPACITY
             && |rx.messages| + |Stamped(rx.table, xs)| <= requested
    requires xs != [] && |id| == 4 && I.SEGMENTED_MINIMUM <= |payload| <= I.MAX_MESSAGE
    requires I.Of(Frames(xs), I.SourceId(id)) == I.Segment(id, payload, pad)
    requires Frames(xs)[0] == I.Segment(id, payload, pad)[0]
    requires |I.Openers(Frames(xs)) - {I.SourceId(id)}| < I.MAX_CONVERSATIONS
    ensures S.Shaped(Feeds(s, chunks)) && Feeds(s, chunks).receiver.Some?
    ensures var w, v, own := s.receiver.value, Feeds(s, chunks).receiver.value, OwnOf(xs, I.SourceId(id));
            var arrived := Stamped(w.rx.table, xs);
            var r := R.Reads(v, requested, false, [], []);
            && own != []
            && Named(arrived, id) == [Can.Item(I.START_OF_MESSAGE, own[0].timestamp, id, 0),
                                      Can.Item(0, own[|own| - 1].timestamp, id + payload, 0)]
            && r.out == w.rx.messages + arrived && r.status == R.Ok
            && I.Lookup(v.rx.table, I.SourceId(id)) == None
  {
    hide Can.Run, I.Valid, I.Kept, Stamped, Feeds, I.Segment, I.Lookup, Can.Step;
    var w, source := s.receiver.value, I.SourceId(id);
    var t := w.rx.table;
    Codec.ChunkedStreamDecodes(BodiesOf(xs), chunks);
    ReceiverSeesFrames(s, chunks);
    InboundsReceived(w, xs);
    I.KeptFromFirst(t, Frames(xs), id, payload, pad);
    NamedIsOwn(t, xs, id);
    StampedSegment(I.Lookup(t, source), id, payload, pad, OwnOf(xs, source));
    I.SegmentationRoundTrip(t, Frames(xs), id, payload, pad);
    FeedsShaped(s, chunks);
    ReadAll(Feeds(s, chunks).receiver.value, requested);
    assert Named(Stamped(t, xs), id) != [];
    NamedEmpty(Stamped(t, xs), id);
  }

  lemma NamedEmpty(items: seq<Can.Item>, id: Bytes)
    requires |id| == 4 && Named(items, id) != []
    ensures items != []
  {
  }

  lemma {:induction false} FeedsShaped(s: S.Sess, chunks: seq<Bytes>)
    requires S.Shaped(s)
    ensures S.Shaped(Feeds(s, chunks))
    decreases |chunks|
  {
    hide S.Receive;
    if chunks != [] { FeedsShaped(S.Receive(s, chunks[0]), chunks[1..]); }
  }

  lemma ReadAll(v: Can.World, requested: nat)
    requires |v.log.open| == |v.rx.pending| && v.rx.protocol == Can.ISO15765 && v.rx.stopped == 0
    requires !v.rx.overflow && !v.rx.malformed && 0 < |v.rx.messages| <= requested
    ensures var r := R.Reads(v, requested, false, [], []);
            r.out == v.rx.messages && r.status == R.Ok
  {
    var q := v.rx.messages;
    assert [] + q[..|q|] == q;
  }
}
