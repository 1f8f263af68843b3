// The raw CAN receive path, composed: octets from the adapter in arbitrary chunks to what a read returns, field by
// field.
module RawPipeline {
  import opened Bytes
  import Codec
  import Can
  import C = CanReceivers
  import P = Pipeline
  import R = Reading
  import S = Session
  import V = Receiving

  // One frame the adapter reports on a raw CAN channel: a status word and a timestamp, the identifier and data.
  datatype Raw = Raw(body: Bytes, status: u32, timestamp: u32, data: Bytes)

  predicate Proper(x: Raw) {
    && |x.body| == 24 + |x.data| && 4 <= |x.data| <= 12
    && Le16(x.body, 0) == 0 && Le16(x.body, 2) == 0x0501 && Le16(x.body, 4) == 9
    && Le32(x.body, 12) == x.status && Le32(x.body, 16) == x.timestamp
    && Le16(x.body, 22) == |x.data| && x.body[24..] == x.data
  }

  ghost predicate AllProper(xs: seq<Raw>) {
    forall x :: x in xs ==> Proper(x)
  }

  function BodiesOf(xs: seq<Raw>): (bs: seq<Bytes>)
    ensures AllProper(xs) ==> forall b :: b in bs ==> Codec.Encodable(b)
  {
    if xs == [] then []
    else
      assert AllProper(xs) ==> Proper(xs[0]) && AllProper(xs[1..]);
      [xs[0].body] + BodiesOf(xs[1..])
  }

  // The queued frame of a report: its data and timestamp, and of its status bits 8, 30 and 31 and no others.
  ghost predicate Shows(m: Can.Item, x: Raw) {
    && m.data == x.data && m.timestamp == x.timestamp && m.txFlags == 0
    && forall k :: 0 <= k < 32 ==>
         Bit(m.status, k) == if k == 8 || k == 30 || k == 31 then Bit(x.status, k) else 0
  }

  ghost predicate AllShow(items: seq<Can.Item>, xs: seq<Raw>) {
    |items| == |xs| && forall i :: 0 <= i < |xs| ==> Shows(items[i], xs[i])
  }

  lemma RawReceived(w: Can.World, x: Raw) returns (m: Can.Item)
    requires |w.log.open| == |w.rx.pending| && Proper(x)
    requires w.rx.protocol == 5 && w.rx.stopped == 0 && |w.rx.frames| < 4096
    ensures Shows(m, x)
    ensures Can.Step(w, Can.EReceive(x.body)).rx == w.rx.(frames := w.rx.frames + [m])
  {
    hide Bit;
    m := Can.Item(Can.KeptStatus(x.status), x.timestamp, x.data, 0);
    assert Can.Receive(w, x.body) == Can.Offer(w, [m]);
    V.OfferExactly(w, [m]);
    assert [m][..1] == [m];
    forall k | 0 <= k < 32
      ensures Bit(m.status, k) == if k == 8 || k == 30 || k == 31 then Bit(x.status, k) else 0
    {
      V.KeptBits(x.status, k);
    }
  }

  // With room, the queue gains exactly the reported frames, in order.
  lemma {:induction false} RawsReceived(w: Can.World, xs: seq<Raw>) returns (items: seq<Can.Item>)
    requires |w.log.open| == |w.rx.pending| && AllProper(xs)
    requires w.rx.protocol == 5 && w.rx.stopped == 0 && |w.rx.frames| + |xs| <= 4096
    ensures AllShow(items, xs)
    ensures Can.Run(w, P.Receives(BodiesOf(xs))).rx == w.rx.(frames := w.rx.frames + items)
    decreases |xs|
  {
    hide Can.Step, Proper, Shows;
    if xs == [] {
      items := [];
      assert w.rx.frames + [] == w.rx.frames;
    } else {
      var m := RawReceived(w, xs[0]);
      var w1 := Can.Step(w, Can.EReceive(xs[0].body));
      assert P.Receives(BodiesOf(xs))[1..] == P.Receives(BodiesOf(xs[1..]));
      var rest := RawsReceived(w1, xs[1..]);
      items := [m] + rest;
      assert w.rx.frames + items == (w.rx.frames + [m]) + rest;
    }
  }

  // What a read hands to its caller for a queued raw frame and for a queued message or indication.
  lemma PresentedCan(m: Can.Item)
    ensures var p := C.Presented(5, m);
            && p.protocolId == 5 && p.rxStatus == m.status && p.timestamp == m.timestamp && p.txFlags == m.txFlags
            && p.data == m.data && p.extraDataIndex == |m.data|
  {
  }

  // The extra-data index is the size, or nothing for the start of a message (bit 1) and a transmission done (bit 3).
  lemma PresentedIso(m: Can.Item)
    ensures var p := C.Presented(6, m);
            && p.protocolId == 6 && p.rxStatus == m.status && p.timestamp == m.timestamp && p.txFlags == m.txFlags
            && p.data == m.data
            && p.extraDataIndex == if Bit(m.status, 1) == 1 || Bit(m.status, 3) == 1 then 0 else |m.data|
  {
    assert Bit(m.status, 1) == Bit(m.status / 2, 0);
    var s := m.status / 2;
    assert Bit(m.status, 3) == Bit(s, 2) == Bit(s / 2, 1) == Bit(s / 2 / 2, 0);
    assert m.status / 8 == s / 2 / 2;
  }

  // What the caller of a read sees of a reported frame.
  ghost predicate Returned(p: C.Message, x: Raw) {
    && p.protocolId == 5 && p.data == x.data && p.extraDataIndex == |x.data|
    && p.timestamp == x.timestamp && p.txFlags == 0
    && forall k :: 0 <= k < 32 ==>
         Bit(p.rxStatus, k) == if k == 8 || k == 30 || k == 31 then Bit(x.status, k) else 0
  }

  // Raw frames end to end: reported, encoded, strung together, cut anywhere and fed; a read that finds the queue
  // empty before them and asks for them all returns exactly them, in order, each with its own data, timestamp and
  // status bits, and answers Ok.
  lemma RawReceivePipeline(s: S.Sess, chunks: seq<Bytes>, xs: seq<Raw>)
    requires S.Valid(s) && s.buffer == [] && s.receiver.Some? && AllProper(xs) && 0 < |xs| <= 4096
    requires Flatten(chunks) == Codec.EncodeAll(BodiesOf(xs))
    requires var rx := s.receiver.value.rx;
             rx.protocol == 5 && rx.stopped == 0 && !rx.overflow && !rx.malformed && rx.frames == []
    ensures S.Shaped(P.Feeds(s, chunks)) && P.Feeds(s, chunks).receiver.Some?
    ensures var r := R.Reads(P.Feeds(s, chunks).receiver.value, |xs|, false, [], []);
            var got := C.AllPresented(5, r.out);
            && r.status == R.Ok && |got| == |xs|
            && (forall i :: 0 <= i < |xs| ==> Returned(got[i], xs[i]))
            && r.world.rx.frames == []
  {
    hide Can.Run, P.Feeds, Can.Step, Bit, Proper;
    var w := s.receiver.value;
    Codec.ChunkedStreamDecodes(BodiesOf(xs), chunks);
    P.ReceiverSeesFrames(s, chunks);
    ReceiverKept(s);
    var items := RawsReceived(w, xs);
    P.FeedsShaped(s, chunks);
    var v := P.Feeds(s, chunks).receiver.value;
    assert v.rx.frames == items by { assert [] + items == items; }
    ReadRaw(v, |xs|);
    forall i | 0 <= i < |xs| ensures Returned(C.Presented(5, items[i]), xs[i]) {
      PresentedCan(items[i]);
      assert Shows(items[i], xs[i]);
    }
  }

  lemma ReceiverKept(s: S.Sess)
    requires S.Valid(s) && s.receiver.Some?
    ensures |s.receiver.value.log.open| == |s.receiver.value.rx.pending|
  {
  }

  lemma ReadRaw(v: Can.World, requested: nat)
    requires |v.log.open| == |v.rx.pending| && v.rx.protocol == 5 && v.rx.stopped == 0
    requires !v.rx.overflow && !v.rx.malformed && 0 < |v.rx.frames| <= requested
    ensures var r := R.Reads(v, requested, false, [], []);
            r.out == v.rx.frames && r.status == R.Ok && r.world.rx.frames == []
  {
    var q := v.rx.frames;
    assert [] + q[..|q|] == q;
  }
}
