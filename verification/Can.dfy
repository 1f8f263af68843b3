// src/can.cpp: the channel receiver. Bounded queues, loss reports, and the pairing of transmit
// confirmations with the writes that asked for them.
module Can {
  import opened Bytes
  import Codec
  import IsoTp

  const CAN: u16 := 5
  const ISO15765: u16 := 6
  const FRAME_CAPACITY := 4096
  const MESSAGE_CAPACITY := 256
  const DATA_FIELD := 4128
  const TX_MSG_TYPE: u32 := 1
  const TX_DONE: u32 := 8

  // One entry of the receive queue: a raw frame, a reassembled message or a transmit indication.
  datatype Item = Item(status: u32, timestamp: u32, data: Bytes, txFlags: u32)

  // A write waiting for its confirmation. `call` names the WriteMsgs call it belongs to, if any.
  datatype Record = Record(sequence: u16, flags: u32, message: Bytes, call: Option<nat>)

  // confirmed: the count behind each call's shared TransmitCount.
  datatype Rx = Rx(
    protocol: u16, table: IsoTp.Table, messages: seq<Item>, frames: seq<Item>, pending: seq<Record>,
    transmitted: nat, confirmed: map<nat, nat>,
    overflow: bool, malformed: bool, loopback: bool, stopped: int)

  // What has happened, for stating what the receiver keeps true.
  //   noted: every write recorded, in order, with the number of the command allocation that carried it
  //   open, paired: indices into noted of the writes still pending, and of those confirmed, in that order
  //   arrived, delivered: queue entries accepted and handed out since the queue was last cleared
  //   lost: entries dropped at capacity and not yet reported
  datatype Log = Log(noted: seq<Write>, open: seq<nat>, paired: seq<nat>,
                     arrived: seq<Item>, delivered: seq<Item>, lost: nat)

  datatype Write = Write(record: Record, alloc: nat)

  datatype World = World(rx: Rx, log: Log)

  function Fresh(protocol: u16): World {
    World(Rx(protocol, [], [], [], [], 0, map[], false, false, false, 0), Log([], [], [], [], [], 0))
  }

  // ---------------------------------------------------------------- queues

  function Queue(rx: Rx): seq<Item> {
    if rx.protocol == ISO15765 then rx.messages else rx.frames
  }

  function Capacity(rx: Rx): nat {
    if rx.protocol == ISO15765 then MESSAGE_CAPACITY else FRAME_CAPACITY
  }

  function WithQueue(rx: Rx, q: seq<Item>): Rx {
    if rx.protocol == ISO15765 then rx.(messages := q) else rx.(frames := q)
  }

  // Queue the items in order; the first that finds no room is dropped, with everything after it.
  function Offer(w: World, items: seq<Item>): World
    decreases |items|
  {
    if items == [] then w
    else if |Queue(w.rx)| == Capacity(w.rx) then
      w.(rx := w.rx.(overflow := true), log := w.log.(lost := w.log.lost + 1))
    else
      Offer(w.(rx := WithQueue(w.rx, Queue(w.rx) + [items[0]]),
               log := w.log.(arrived := w.log.arrived + [items[0]])), items[1..])
  }

  lemma OfferOne(w: World, a: Item)
    ensures Offer(w, [a]) ==
              if |Queue(w.rx)| == Capacity(w.rx) then
                w.(rx := w.rx.(overflow := true), log := w.log.(lost := w.log.lost + 1))
              else
                w.(rx := WithQueue(w.rx, Queue(w.rx) + [a]), log := w.log.(arrived := w.log.arrived + [a]))
  {
    assert [a][1..] == [];
  }

  lemma OfferCons(w: World, a: Item, rest: seq<Item>)
    ensures Offer(w, [a] + rest) ==
              if |Queue(w.rx)| == Capacity(w.rx) then Offer(w, [a]) else Offer(Offer(w, [a]), rest)
  {
    assert ([a] + rest)[1..] == rest;
    OfferOne(w, a);
  }

  // ---------------------------------------------------------------- steps

  function FindSequence(pending: seq<Record>, sequence: u16, from: nat): (i: nat)
    requires from <= |pending|
    ensures from <= i <= |pending|
    ensures i < |pending| ==> pending[i].sequence == sequence
    ensures forall j :: from <= j < i ==> pending[j].sequence != sequence
    decreases |pending| - from
  {
    if from == |pending| || pending[from].sequence == sequence then from
    else FindSequence(pending, sequence, from + 1)
  }

  function Confirmed(rx: Rx, call: nat): nat {
    if call in rx.confirmed then rx.confirmed[call] else 0
  }

  // What a confirmed write puts in the receive queue.
  function Echo(rx: Rx, sent: Record, timestamp: u32): seq<Item> {
    if rx.protocol == ISO15765 then
      (if |sent.message| >= 4 then [Item(TX_MSG_TYPE + TX_DONE, timestamp, sent.message[..4], sent.flags)] else [])
      + (if rx.loopback then [Item(TX_MSG_TYPE, timestamp, sent.message, sent.flags)] else [])
    else if rx.loopback && 4 <= |sent.message| <= 12 then
      [Item(TX_MSG_TYPE + (if sent.flags / 0x100 % 2 == 1 then 0x100 else 0), timestamp, sent.message, sent.flags)]
    else []
  }

  // iMsgTxDone: pair with the oldest record of that sequence, dropping the older ones.
  function Confirm(w: World, sequence: u16, timestamp: u32): World
    requires |w.log.open| == |w.rx.pending|
  {
    var i := FindSequence(w.rx.pending, sequence, 0);
    if i == |w.rx.pending| then w
    else
      var sent := w.rx.pending[i];
      var counted := match sent.call
        case None => w.rx.confirmed
        case Some(c) => w.rx.confirmed[c := Confirmed(w.rx, c) + 1];
      Offer(World(w.rx.(pending := w.rx.pending[i + 1..], confirmed := counted, transmitted := w.rx.transmitted + 1),
                  w.log.(open := w.log.open[i + 1..], paired := w.log.paired + [w.log.open[i]])),
            Echo(w.rx, sent, timestamp))
  }

  // The status bits raw CAN keeps: 31, 30 and 8.
  function KeptStatus(x: u32): u32 {
    x / 0x4000_0000 * 0x4000_0000 + x / 0x100 % 2 * 0x100
  }

  function Lifted(outs: seq<IsoTp.Output>, timestamp: u32): seq<Item> {
    seq(|outs|, i requires 0 <= i < |outs| => Item(outs[i].status, timestamp, outs[i].data, 0))
  }

  // The frames this receiver takes any notice of.
  predicate Addressed(rx: Rx, body: Bytes) {
    && rx.stopped == 0 && |body| >= 12
    && Le16(body, 0) == 0 && Le16(body, 2) == Codec.ChannelNode(rx.protocol)
    && (Le16(body, 4) == 9 || Le16(body, 4) == 10)
  }

  predicate WellSized(body: Bytes) {
    |body| >= 24 && 4 <= Le16(body, 22) <= 12 && |body| == 24 + Le16(body, 22)
  }

  function Receive(w: World, body: Bytes): World
    requires |w.log.open| == |w.rx.pending|
  {
    if !Addressed(w.rx, body) then w
    else if Le16(body, 4) == 10 then
      if |body| < 20 then w
      else if Le32(body, 12) == 0x10b || Le32(body, 12) == 0x119 then w.(rx := w.rx.(overflow := true))
      else if Le32(body, 12) == 0x106 then Confirm(w, Le16(body, 6), Le32(body, 16))
      else w
    else if !WellSized(body) then w.(rx := w.rx.(malformed := true))
    else if w.rx.protocol == ISO15765 then
      var frame := body[24..];
      Offer(w.(rx := w.rx.(table := IsoTp.After(w.rx.table, frame))),
            Lifted(IsoTp.Reported(w.rx.table, frame), Le32(body, 16)))
    else Offer(w, [Item(KeptStatus(Le32(body, 12)), Le32(body, 16), body[24..], 0)])
  }

  function Stored(write: Write): Write {
    write.(record := write.record.(message := IsoTp.Clip(write.record.message, 4 + 8 + 4096)))
  }

  // A full list of records loses its oldest.
  function Note(w: World, write: Write): (v: World)
    requires |w.log.open| == |w.rx.pending|
    ensures |v.log.open| == |v.rx.pending|
  {
    var full := |w.rx.pending| == MESSAGE_CAPACITY;
    World(w.rx.(pending := (if full then w.rx.pending[1..] else w.rx.pending) + [Stored(write).record]),
          w.log.(noted := w.log.noted + [Stored(write)],
                 open := (if full then w.log.open[1..] else w.log.open) + [|w.log.noted|]))
  }

  function Forget(w: World): (v: World)
    requires |w.log.open| == |w.rx.pending|
    ensures |v.log.open| == |v.rx.pending|
  {
    if w.rx.pending == [] then w
    else World(w.rx.(pending := w.rx.pending[..|w.rx.pending| - 1]),
               w.log.(open := w.log.open[..|w.log.open| - 1]))
  }

  function Flush(w: World): World {
    World(w.rx.(frames := [], messages := [], table := [], overflow := false, malformed := false),
          w.log.(arrived := [], delivered := [], lost := 0))
  }

  function Stop(w: World, code: int): World {
    World(w.rx.(stopped := if w.rx.stopped == 0 then code else w.rx.stopped, frames := [], messages := [], pending := []),
          w.log.(open := [], arrived := [], delivered := []))
  }

  function Min(a: nat, b: nat): nat {
    if a < b then a else b
  }

  // A reader takes up to n entries.
  function Drain(w: World, n: nat): World {
    var k := Min(n, |Queue(w.rx)|);
    World(WithQueue(w.rx, Queue(w.rx)[k..]), w.log.(delivered := w.log.delivered + Queue(w.rx)[..k]))
  }

  // A completing reader takes one pending loss report.
  function Report(w: World): World {
    if w.rx.overflow then World(w.rx.(overflow := false), w.log.(lost := 0))
    else w.(rx := w.rx.(malformed := false))
  }

  datatype Event =
    | EReceive(body: Bytes)
    | ENote(write: Write)
    | EForget
    | EForgetAll
    | EFlush
    | ELoopback(enabled: bool)
    | EStop(code: int)
    | EDrain(n: nat)
    | EReport

  function Step(w: World, e: Event): World
    requires |w.log.open| == |w.rx.pending|
    ensures |Step(w, e).log.open| == |Step(w, e).rx.pending|
  {
    match e
    case EReceive(body) =>
      ReceiveShape(w, body);
      Receive(w, body)
    case ENote(write) => Note(w, write)
    case EForget => Forget(w)
    case EForgetAll => World(w.rx.(pending := []), w.log.(open := []))
    case EFlush => Flush(w)
    case ELoopback(enabled) => w.(rx := w.rx.(loopback := enabled))
    case EStop(code) => Stop(w, code)
    case EDrain(n) => Drain(w, n)
    case EReport => Report(w)
  }

  function Run(w: World, events: seq<Event>): (w': World)
    requires |w.log.open| == |w.rx.pending|
    ensures |w'.log.open| == |w'.rx.pending|
    decreases |events|
  {
    if events == [] then w else Run(Step(w, events[0]), events[1..])
  }

  // Queuing touches the queue, the loss flag and their log, and nothing else.
  lemma {:induction false} OfferFrame(w: World, items: seq<Item>)
    ensures var v := Offer(w, items);
            && v.rx == w.rx.(messages := v.rx.messages, frames := v.rx.frames, overflow := v.rx.overflow)
            && v.log == w.log.(arrived := v.log.arrived, lost := v.log.lost)
    decreases |items|
  {
    if items != [] && |Queue(w.rx)| != Capacity(w.rx) {
      OfferFrame(w.(rx := WithQueue(w.rx, Queue(w.rx) + [items[0]]),
                    log := w.log.(arrived := w.log.arrived + [items[0]])), items[1..]);
    }
  }

  lemma ConfirmFrame(w: World, sequence: u16, timestamp: u32)
    requires |w.log.open| == |w.rx.pending|
    ensures var v, i := Confirm(w, sequence, timestamp), FindSequence(w.rx.pending, sequence, 0);
            if i == |w.rx.pending| then v == w
            else
              && v.rx.pending == w.rx.pending[i + 1..] && v.log.open == w.log.open[i + 1..]
              && v.log.paired == w.log.paired + [w.log.open[i]] && v.rx.transmitted == w.rx.transmitted + 1
              && v.log.noted == w.log.noted
              && v.rx.confirmed == (match w.rx.pending[i].call
                                    case None => w.rx.confirmed
                                    case Some(c) => w.rx.confirmed[c := Confirmed(w.rx, c) + 1])
  {
    var i := FindSequence(w.rx.pending, sequence, 0);
    if i < |w.rx.pending| {
      var sent := w.rx.pending[i];
      var counted := match sent.call
        case None => w.rx.confirmed
        case Some(c) => w.rx.confirmed[c := Confirmed(w.rx, c) + 1];
      OfferFrame(World(w.rx.(pending := w.rx.pending[i + 1..], confirmed := counted,
                             transmitted := w.rx.transmitted + 1),
                       w.log.(open := w.log.open[i + 1..], paired := w.log.paired + [w.log.open[i]])),
                 Echo(w.rx, sent, timestamp));
    }
  }

  lemma ReceiveShape(w: World, body: Bytes)
    requires |w.log.open| == |w.rx.pending|
    ensures |Receive(w, body).log.open| == |Receive(w, body).rx.pending|
  {
    if Addressed(w.rx, body) {
      if Le16(body, 4) == 10 {
        if |body| >= 20 { ConfirmFrame(w, Le16(body, 6), Le32(body, 16)); }
      } else if WellSized(body) {
        if w.rx.protocol == ISO15765 {
          var frame := body[24..];
          OfferFrame(w.(rx := w.rx.(table := IsoTp.After(w.rx.table, frame))),
                     Lifted(IsoTp.Reported(w.rx.table, frame), Le32(body, 16)));
        } else {
          OfferFrame(w, [Item(KeptStatus(Le32(body, 12)), Le32(body, 16), body[24..], 0)]);
        }
      }
    }
  }

  // ---------------------------------------------------------------- what every step keeps

  // p and then o, strictly increasing throughout and below n.
  ghost predicate Ordered(p: seq<nat>, o: seq<nat>, n: nat) {
    && (forall i, j :: 0 <= i < j < |p| ==> p[i] < p[j])
    && (forall i, j :: 0 <= i < j < |o| ==> o[i] < o[j])
    && (forall i, j :: 0 <= i < |p| && 0 <= j < |o| ==> p[i] < o[j])
    && Below(p, n) && Below(o, n)
  }

  ghost predicate Below(s: seq<nat>, n: nat) {
    forall i :: 0 <= i < |s| ==> s[i] < n
  }

  lemma OrderedShift(p: seq<nat>, o: seq<nat>, n: nat, i: nat)
    requires Ordered(p, o, n) && i < |o|
    ensures Ordered(p + [o[i]], o[i + 1..], n)
  {
  }

  lemma OrderedSlice(p: seq<nat>, o: seq<nat>, n: nat, from: nat, to: nat)
    requires Ordered(p, o, n) && from <= to <= |o|
    ensures Ordered(p, o[from..to], n)
  {
  }

  lemma OrderedPush(p: seq<nat>, o: seq<nat>, n: nat)
    requires Ordered(p, o, n)
    ensures Ordered(p, o + [n], n + 1)
  {
  }

  // How many of the writes at these indices belong to a call.
  ghost function Count(noted: seq<Write>, at: seq<nat>, call: nat): nat
    requires Below(at, |noted|)
  {
    if at == [] then 0
    else Count(noted, at[..|at| - 1], call) + (if noted[at[|at| - 1]].record.call == Some(call) then 1 else 0)
  }

  function Noted(noted: seq<Write>, call: nat): nat {
    if noted == [] then 0
    else Noted(noted[..|noted| - 1], call) + (if noted[|noted| - 1].record.call == Some(call) then 1 else 0)
  }

  // The queue side: one queue in use, within its capacity, first in first out, every entry small enough for
  // the caller's data field, and no loss unreported unless the flag that reports it is up.
  ghost predicate QueueInv(w: World) {
    && (if w.rx.protocol == ISO15765 then w.rx.frames == [] else w.rx.messages == [] && w.rx.table == [])
    && |Queue(w.rx)| <= Capacity(w.rx)
    && (forall m :: m in Queue(w.rx) ==> |m.data| <= DATA_FIELD && (w.rx.protocol != ISO15765 ==> |m.data| <= 12))
    && w.log.delivered + Queue(w.rx) == w.log.arrived
    && (w.log.lost > 0 ==> w.rx.overflow)
    && IsoTp.Valid(w.rx.table)
  }

  // The write side: the records pending are those of the open writes; confirmed and open writes together are
  // some of the noted ones in the order they were noted, none twice; and the counts are the confirmed ones.
  ghost predicate PairInv(w: World) {
    && |w.log.open| == |w.rx.pending| <= MESSAGE_CAPACITY
    && Ordered(w.log.paired, w.log.open, |w.log.noted|)
    && (forall k :: 0 <= k < |w.log.open| ==> w.rx.pending[k] == w.log.noted[w.log.open[k]].record)
    && (forall u :: u in w.log.noted ==> |u.record.message| <= 4 + 8 + 4096)
    && w.rx.transmitted == |w.log.paired|
    && (forall c :: Confirmed(w.rx, c) == Count(w.log.noted, w.log.paired, c))
  }

  ghost predicate Inv(w: World)
    ensures Inv(w) ==> |w.log.open| == |w.rx.pending|
  {
    QueueInv(w) && PairInv(w)
  }

  lemma FreshInv(protocol: u16)
    ensures Inv(Fresh(protocol))
  {
  }

  lemma {:induction false} OfferQueueInv(w: World, items: seq<Item>)
    requires QueueInv(w)
    requires forall m :: m in items ==> |m.data| <= DATA_FIELD && (w.rx.protocol != ISO15765 ==> |m.data| <= 12)
    ensures QueueInv(Offer(w, items))
    decreases |items|
  {
    if items != [] && |Queue(w.rx)| != Capacity(w.rx) {
      var v := w.(rx := WithQueue(w.rx, Queue(w.rx) + [items[0]]),
                  log := w.log.(arrived := w.log.arrived + [items[0]]));
      assert v.log.delivered + Queue(v.rx) == (w.log.delivered + Queue(w.rx)) + [items[0]];
      OfferQueueInv(v, items[1..]);
    }
  }

  lemma ConfirmQueueInv(w: World, sequence: u16, timestamp: u32)
    requires Inv(w)
    ensures QueueInv(Confirm(w, sequence, timestamp))
  {
    var i := FindSequence(w.rx.pending, sequence, 0);
    if i < |w.rx.pending| {
      var sent := w.rx.pending[i];
      assert sent == w.log.noted[w.log.open[i]].record;
      var counted := match sent.call
        case None => w.rx.confirmed
        case Some(c) => w.rx.confirmed[c := Confirmed(w.rx, c) + 1];
      OfferQueueInv(World(w.rx.(pending := w.rx.pending[i + 1..], confirmed := counted,
                                transmitted := w.rx.transmitted + 1),
                          w.log.(open := w.log.open[i + 1..], paired := w.log.paired + [w.log.open[i]])),
                    Echo(w.rx, sent, timestamp));
    }
  }

  lemma ReceiveQueueInv(w: World, body: Bytes)
    requires Inv(w)
    ensures QueueInv(Receive(w, body))
  {
    if Addressed(w.rx, body) {
      if Le16(body, 4) == 10 {
        if |body| >= 20 { ConfirmQueueInv(w, Le16(body, 6), Le32(body, 16)); }
      } else if WellSized(body) {
        if w.rx.protocol == ISO15765 {
          var frame := body[24..];
          IsoTp.AfterValid(w.rx.table, frame);
          IsoTp.ReportsNameTheirId(w.rx.table, frame);
          OfferQueueInv(w.(rx := w.rx.(table := IsoTp.After(w.rx.table, frame))),
                        Lifted(IsoTp.Reported(w.rx.table, frame), Le32(body, 16)));
        } else {
          OfferQueueInv(w, [Item(KeptStatus(Le32(body, 12)), Le32(body, 16), body[24..], 0)]);
        }
      }
    }
  }

  lemma {:induction false} CountGrows(noted: seq<Write>, more: seq<Write>, at: seq<nat>, call: nat)
    requires Below(at, |noted|)
    ensures Count(noted + more, at, call) == Count(noted, at, call)
  {
    if at != [] {
      CountGrows(noted, more, at[..|at| - 1], call);
    }
  }

  lemma CountSnoc(noted: seq<Write>, at: seq<nat>, i: nat, call: nat)
    requires i < |noted| && Below(at, |noted|)
    ensures Count(noted, at + [i], call) == Count(noted, at, call) + (if noted[i].record.call == Some(call) then 1 else 0)
  {
    assert (at + [i])[..|at|] == at;
  }

  lemma PairConfirm(w: World, sequence: u16, timestamp: u32)
    requires PairInv(w)
    ensures PairInv(Confirm(w, sequence, timestamp))
  {
    hide Offer;
    ConfirmFrame(w, sequence, timestamp);
    var v, i := Confirm(w, sequence, timestamp), FindSequence(w.rx.pending, sequence, 0);
    if i < |w.rx.pending| {
      var p, o := w.log.paired, w.log.open;
      OrderedShift(p, o, |w.log.noted|, i);
      forall c ensures Confirmed(v.rx, c) == Count(v.log.noted, v.log.paired, c) {
        CountSnoc(w.log.noted, p, o[i], c);
      }
    }
  }

  lemma PairKeep(w: World, v: World, from: nat, to: nat)
    requires PairInv(w) && from <= to <= |w.log.open|
    requires v.log.noted == w.log.noted && v.log.paired == w.log.paired && v.log.open == w.log.open[from..to]
    requires v.rx.pending == w.rx.pending[from..to]
    requires v.rx.transmitted == w.rx.transmitted && v.rx.confirmed == w.rx.confirmed
    ensures PairInv(v)
  {
    OrderedSlice(w.log.paired, w.log.open, |w.log.noted|, from, to);
    forall c ensures Confirmed(v.rx, c) == Count(v.log.noted, v.log.paired, c) {
      assert Confirmed(w.rx, c) == Count(w.log.noted, w.log.paired, c);
    }
  }

  lemma PairAppend(w: World, write: Write)
    requires PairInv(w) && |w.rx.pending| < MESSAGE_CAPACITY
    ensures PairInv(Note(w, write))
  {
    OrderedPush(w.log.paired, w.log.open, |w.log.noted|);
    var v := Note(w, write);
    forall c ensures Confirmed(v.rx, c) == Count(v.log.noted, v.log.paired, c) {
      CountGrows(w.log.noted, [Stored(write)], w.log.paired, c);
    }
  }

  lemma PairNote(w: World, write: Write)
    requires PairInv(w)
    ensures PairInv(Note(w, write))
  {
    if |w.rx.pending| == MESSAGE_CAPACITY {
      var v := World(w.rx.(pending := w.rx.pending[1..]), w.log.(open := w.log.open[1..]));
      PairKeep(w, v, 1, |w.log.open|);
      PairAppend(v, write);
      assert Note(v, write) == Note(w, write);
    } else {
      PairAppend(w, write);
    }
  }

  lemma DrainInv(w: World, n: nat)
    requires QueueInv(w)
    ensures QueueInv(Drain(w, n))
  {
    var q, k := Queue(w.rx), Min(n, |Queue(w.rx)|);
    assert q == q[..k] + q[k..];
    assert w.log.delivered + q == (w.log.delivered + q[..k]) + q[k..];
  }

  lemma PairReceive(w: World, body: Bytes)
    requires PairInv(w)
    ensures PairInv(Receive(w, body))
  {
    hide Offer;
    if Addressed(w.rx, body) && |body| >= 20 && Le16(body, 4) == 10 && Le32(body, 12) == 0x106 {
      PairConfirm(w, Le16(body, 6), Le32(body, 16));
    } else {
      ReceiveFrame(w, body);
      PairKeep(w, Receive(w, body), 0, |w.log.open|);
    }
  }

  // Anything but a confirmation leaves the records and the counts alone.
  lemma ReceiveFrame(w: World, body: Bytes)
    requires |w.log.open| == |w.rx.pending|
    requires !(Addressed(w.rx, body) && |body| >= 20 && Le16(body, 4) == 10 && Le32(body, 12) == 0x106)
    ensures var v := Receive(w, body);
            && v.log == w.log.(arrived := v.log.arrived, lost := v.log.lost)
            && v.rx.pending == w.rx.pending && v.rx.transmitted == w.rx.transmitted
            && v.rx.confirmed == w.rx.confirmed
  {
    if Addressed(w.rx, body) && Le16(body, 4) == 9 && WellSized(body) {
      if w.rx.protocol == ISO15765 {
        OfferFrame(w.(rx := w.rx.(table := IsoTp.After(w.rx.table, body[24..]))),
                   Lifted(IsoTp.Reported(w.rx.table, body[24..]), Le32(body, 16)));
      } else {
        OfferFrame(w, [Item(KeptStatus(Le32(body, 12)), Le32(body, 16), body[24..], 0)]);
      }
    }
  }

  lemma StepInv(w: World, e: Event)
    requires Inv(w)
    ensures Inv(Step(w, e))
  {
    hide Receive, Note, PairInv;
    match e
    case EReceive(body) =>
      ReceiveQueueInv(w, body);
      PairReceive(w, body);
    case ENote(write) =>
      PairNote(w, write);
      NoteQueue(w, write);
    case EForget =>
      if w.rx.pending != [] { PairKeep(w, Forget(w), 0, |w.log.open| - 1); }
    case EForgetAll => PairKeep(w, Step(w, e), 0, 0);
    case EFlush => PairKeep(w, Flush(w), 0, |w.log.open|);
    case ELoopback(enabled) => PairKeep(w, Step(w, e), 0, |w.log.open|);
    case EStop(code) => PairKeep(w, Stop(w, code), 0, 0);
    case EDrain(n) =>
      DrainInv(w, n);
      PairKeep(w, Drain(w, n), 0, |w.log.open|);
    case EReport => PairKeep(w, Report(w), 0, |w.log.open|);
  }

  lemma NoteQueue(w: World, write: Write)
    requires Inv(w)
    ensures QueueInv(Note(w, write))
  {
  }

  // The invariant holds in every state any interleaving of the receiver's critical sections can reach.
  lemma {:induction false} RunInv(w: World, events: seq<Event>)
    requires Inv(w)
    ensures Inv(Run(w, events))
    decreases |events|
  {
    if events != [] {
      StepInv(w, events[0]);
      RunInv(Step(w, events[0]), events[1..]);
    }
  }
}
