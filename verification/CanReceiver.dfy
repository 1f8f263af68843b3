// src/can.hpp and src/can.cpp: the receiver as the object the reader thread and the API share. Each method is
// one critical section; `log` is its history.
module CanReceivers {
  import opened Bytes
  import opened Can
  import Codec
  import IsoTp
  import Reading

  // What a caller's PASSTHRU_MSG receives; DataSize is the length of data.
  datatype Message = Message(protocolId: u16, rxStatus: u32, timestamp: u32, txFlags: u32, extraDataIndex: nat, data: Bytes)

  // Indications carry the ID alone and report no extra data.
  function Presented(protocol: u16, m: Item): Message {
    if protocol == ISO15765 then
      Message(ISO15765, m.status, m.timestamp, m.txFlags,
              if m.status / 2 % 2 == 1 || m.status / 8 % 2 == 1 then 0 else |m.data|, m.data)
    else Message(CAN, m.status, m.timestamp, m.txFlags, |m.data|, m.data)
  }

  function AllPresented(protocol: u16, items: seq<Item>): seq<Message> {
    seq(|items|, i requires 0 <= i < |items| => Presented(protocol, items[i]))
  }

  lemma PresentedAppend(protocol: u16, a: seq<Item>, b: seq<Item>)
    ensures AllPresented(protocol, a + b) == AllPresented(protocol, a) + AllPresented(protocol, b)
  {
  }

  // out has become before with `took` presented from index `from` on.
  ghost predicate Filled(protocol: u16, out: seq<Message>, before: seq<Message>, from: nat, took: seq<Item>) {
    && |out| == |before| && from + |took| <= |out|
    && out == before[..from] + AllPresented(protocol, took) + before[from + |took|..]
  }

  lemma FilledNext(protocol: u16, out: seq<Message>, before: seq<Message>, from: nat, took: seq<Item>, m: Item)
    requires Filled(protocol, out, before, from, took) && from + |took| < |out|
    ensures Filled(protocol, out[from + |took| := Presented(protocol, m)], before, from, took + [m])
  {
    hide Presented;
    PresentedAppend(protocol, took, [m]);
    var k := from + |took|;
    assert before[k..] == [before[k]] + before[k + 1..];
    assert out[k := Presented(protocol, m)]
        == before[..from] + (AllPresented(protocol, took) + AllPresented(protocol, [m])) + before[k + 1..];
  }

  lemma FilledNothing(protocol: u16, out: seq<Message>, before: seq<Message>, from: nat)
    requires from <= |before|
    ensures Filled(protocol, out, before, from, []) <==> out == before
  {
    hide Presented;
    assert before[..from] + AllPresented(protocol, []) + before[from..] == before;
  }

  lemma FilledMore(protocol: u16, out: seq<Message>, mid: seq<Message>, before: seq<Message>,
                   had: seq<Item>, took: seq<Item>)
    requires Filled(protocol, mid, before, 0, had) && Filled(protocol, out, mid, |had|, took)
    ensures Filled(protocol, out, before, 0, had + took)
  {
    hide Presented;
    PresentedAppend(protocol, had, took);
    var k := |had| + |took|;
    assert mid[..|had|] == AllPresented(protocol, had);
    assert mid[k..] == before[k..];
  }

  // Filled from the start: the presented messages first, and nothing past them touched.
  lemma FilledMeans(protocol: u16, out: seq<Message>, before: seq<Message>, took: seq<Item>)
    requires Filled(protocol, out, before, 0, took)
    ensures out[..|took|] == AllPresented(protocol, took) && out[|took|..] == before[|took|..]
  {
    hide Presented;
  }

  lemma MoveOver(took: seq<Item>, q: seq<Item>)
    requires q != []
    ensures took + q == (took + [q[0]]) + q[1..]
  {
    assert q == [q[0]] + q[1..];
  }

  lemma EchoIso(rx: Rx, sent: Record, timestamp: u32, done: Item, whole: Item)
    requires rx.protocol == ISO15765 && whole == Item(TX_MSG_TYPE, timestamp, sent.message, sent.flags)
    requires |sent.message| >= 4 ==> done == Item(TX_MSG_TYPE + TX_DONE, timestamp, sent.message[..4], sent.flags)
    ensures Echo(rx, sent, timestamp) ==
              if |sent.message| >= 4 then (if rx.loopback then [done] + [whole] else [done])
              else if rx.loopback then [whole] else []
  {
    assert [] + [whole] == [whole] && [done] + [] == [done];
  }

  lemma OfferNothing(w: World)
    ensures Offer(w, []) == w
  {
  }

  lemma OneQueue(w: World)
    requires Inv(w)
    ensures if w.rx.protocol == ISO15765 then w.rx.frames == [] else w.rx.messages == []
  {
  }

  // Queuing neither reads nor writes the transmit count.
  lemma {:induction false} OfferCounted(w: World, items: seq<Item>)
    ensures Offer(w.(rx := w.rx.(transmitted := w.rx.transmitted + 1)), items)
         == (var v := Offer(w, items); v.(rx := v.rx.(transmitted := w.rx.transmitted + 1)))
    decreases |items|
  {
    if items != [] && |Queue(w.rx)| != Capacity(w.rx) {
      var u := w.(rx := WithQueue(w.rx, Queue(w.rx) + [items[0]]), log := w.log.(arrived := w.log.arrived + [items[0]]));
      OfferCounted(u, items[1..]);
    }
  }

  lemma ConfirmOffers(w: World, sequence: u16, timestamp: u32, u: World)
    requires |w.log.open| == |w.rx.pending|
    requires var i := FindSequence(w.rx.pending, sequence, 0);
             && i < |w.rx.pending|
             && u.log == w.log.(open := w.log.open[i + 1..], paired := w.log.paired + [w.log.open[i]])
             && u.rx == w.rx.(pending := w.rx.pending[i + 1..],
                              confirmed := (match w.rx.pending[i].call
                                            case None => w.rx.confirmed
                                            case Some(c) => w.rx.confirmed[c := Confirmed(w.rx, c) + 1]))
    ensures Confirm(w, sequence, timestamp)
         == Offer(u.(rx := u.rx.(transmitted := u.rx.transmitted + 1)),
                  Echo(u.rx, w.rx.pending[FindSequence(w.rx.pending, sequence, 0)], timestamp))
  {
  }

  class CanReceiver {
    const protocol: u16
    const reassembler: IsoTp.IsoTpReassembler
    var messages: seq<Item>
    var frames: seq<Item>
    var pending: seq<Record>
    var transmitted: nat
    var confirmed: map<nat, nat>
    var overflow: bool
    var malformed: bool
    var loopback: bool
    var stopped: int
    ghost var log: Log

    ghost function State(): World
      reads this, reassembler
    {
      World(Rx(protocol, reassembler.assemblies, messages, frames, pending, transmitted, confirmed,
               overflow, malformed, loopback, stopped), log)
    }

    ghost predicate Valid()
      reads this, reassembler
      ensures Valid() ==> |log.open| == |pending|
    {
      Inv(State())
    }

    constructor (protocol: u16)
      ensures Valid() && State() == Fresh(protocol) && fresh(reassembler)
    {
      this.protocol := protocol;
      reassembler := new IsoTp.IsoTpReassembler();
      messages, frames, pending, transmitted, confirmed := [], [], [], 0, map[];
      overflow, malformed, loopback, stopped := false, false, false, 0;
      log := Log([], [], [], [], [], 0);
      new;
      FreshInv(protocol);
    }

    // The queue check every delivery makes first; false means the entry found no room.
    method Enqueue(m: Item) returns (ok: bool)
      modifies this`messages, this`frames, this`overflow, this`log
      ensures State() == Offer(old(State()), [m])
      ensures ok <==> |old(Queue(State().rx))| != Capacity(old(State().rx))
    {
      OfferOne(State(), m);
      ok := if protocol == ISO15765 then |messages| != MESSAGE_CAPACITY else |frames| != FRAME_CAPACITY;
      if !ok {
        overflow := true;
        log := log.(lost := log.lost + 1);
      } else {
        log := log.(arrived := log.arrived + [m]);
        if protocol == ISO15765 { messages := messages + [m]; } else { frames := frames + [m]; }
      }
    }

    method Receive(body: Bytes)
      requires Valid()
      modifies this, reassembler
      ensures Valid() && State() == Step(old(State()), EReceive(body))
    {
      hide Inv, Offer, Confirm;
      ghost var w := State();
      StepInv(w, EReceive(body));
      if stopped != 0 || |body| < 12 || Le16(body, 0) != 0 || Le16(body, 2) != Codec.ChannelNode(protocol) { return; }
      var opcode := Le16(body, 4);
      if opcode == 10 {
        if |body| < 20 { return; }
        var indication := Le32(body, 12);
        if indication == 0x10b || indication == 0x119 {
          overflow := true;
        } else if indication == 0x106 {
          var paired := DeliverConfirmed(Le16(body, 6), Le32(body, 16));
          if paired { transmitted := transmitted + 1; }
        }
        return;
      }
      if opcode != 9 { return; }
      if |body| < 24 || Le16(body, 22) < 4 || Le16(body, 22) > 12 || |body| != 24 + Le16(body, 22) {
        malformed := true;
        return;
      }
      assert body[24..] == body[24..24 + Le16(body, 22)];
      if protocol == ISO15765 {
        ReceiveSegment(body[24..24 + Le16(body, 22)], Le32(body, 16));
        return;
      }
      var ok := Enqueue(Item(KeptStatus(Le32(body, 12)), Le32(body, 16), body[24..24 + Le16(body, 22)], 0));
    }

    // The ISO15765 half of Receive: what the reassembler reports is queued until the queue is full.
    method ReceiveSegment(frame: Bytes, timestamp: u32)
      requires Valid()
      modifies this`messages, this`frames, this`overflow, this`log, reassembler
      ensures var w := old(State());
              State() == Offer(w.(rx := w.rx.(table := IsoTp.After(w.rx.table, frame))),
                               Lifted(IsoTp.Reported(w.rx.table, frame), timestamp))
    {
      hide Offer;
      var outputs := reassembler.Feed(frame);
      ghost var early, items := State(), Lifted(outputs, timestamp);
      for i := 0 to |outputs|
        invariant Offer(early, items) == Offer(State(), items[i..])
        modifies this`messages, this`frames, this`overflow, this`log
      {
        assert items[i..] == [items[i]] + items[i + 1..];
        OfferCons(State(), items[i], items[i + 1..]);
        var ok := Enqueue(Item(outputs[i].status, timestamp, outputs[i].data, 0));
        if !ok { return; }
      }
      OfferNothing(State());
    }

    // The caller counts a true result into `transmitted`.
    method DeliverConfirmed(sequence: u16, timestamp: u32) returns (paired: bool)
      requires Valid()
      modifies this`messages, this`frames, this`pending, this`confirmed, this`overflow, this`log
      ensures var v := Confirm(old(State()), sequence, timestamp);
              v == State().(rx := State().rx.(transmitted := transmitted + if paired then 1 else 0))
    {
      hide Offer, Inv, Confirm, Echo;
      ghost var w := State();
      ConfirmFrame(w, sequence, timestamp);
      var i := FindPending(sequence);
      if i == |pending| { return false; }
      var sent := pending[i];
      paired := true;
      pending := pending[i + 1..];
      if sent.call.Some? {
        var c := sent.call.value;
        confirmed := confirmed[c := (if c in confirmed then confirmed[c] else 0) + 1];
      }
      log := log.(open := log.open[i + 1..], paired := log.paired + [log.open[i]]);
      ConfirmOffers(w, sequence, timestamp, State());
      OfferCounted(State(), Echo(State().rx, sent, timestamp));
      EchoConfirmed(sent, timestamp);
    }

    method FindPending(sequence: u16) returns (i: nat)
      ensures i == FindSequence(pending, sequence, 0)
    {
      i := 0;
      while i < |pending| && pending[i].sequence != sequence
        invariant i <= |pending|
        invariant forall j :: 0 <= j < i ==> pending[j].sequence != sequence
      {
        i := i + 1;
      }
    }

    // The delivering half of deliver_confirmed.
    method EchoConfirmed(sent: Record, timestamp: u32)
      modifies this`messages, this`frames, this`overflow, this`log
      ensures State() == Offer(old(State()), Echo(old(State().rx), sent, timestamp))
    {
      hide Offer;
      OfferNothing(State());
      if protocol == ISO15765 {
        var done := Item(TX_MSG_TYPE + TX_DONE, timestamp, if |sent.message| >= 4 then sent.message[..4] else [], sent.flags);
        var whole := Item(TX_MSG_TYPE, timestamp, sent.message, sent.flags);
        EchoIso(State().rx, sent, timestamp, done, whole);
        OfferCons(State(), done, [whole]);
        if |sent.message| >= 4 {
          var ok := Enqueue(done);
          if !ok { return; }
        }
        if loopback {
          var ok := Enqueue(whole);
        }
      } else if loopback && |sent.message| >= 4 && |sent.message| <= 12 {
        var width := if sent.flags / 0x100 % 2 == 1 then 0x100 else 0;
        var ok := Enqueue(Item(TX_MSG_TYPE + width, timestamp, sent.message, sent.flags));
      }
    }

    // alloc: which command allocation gave `sequence`, for the history only.
    method NoteTransmit(message: Bytes, flags: u32, sequence: u16, call: Option<nat>, ghost alloc: nat)
      requires Valid()
      modifies this
      ensures Valid() && State() == Step(old(State()), ENote(Write(Record(sequence, flags, message, call), alloc)))
    {
      hide Inv;
      ghost var e := ENote(Write(Record(sequence, flags, message, call), alloc));
      StepInv(State(), e);
      log := Step(State(), e).log;
      if |pending| == MESSAGE_CAPACITY { pending := pending[1..]; }
      var size := if |message| < 4 + 8 + 4096 then |message| else 4 + 8 + 4096;
      assert message[..size] == IsoTp.Clip(message, 4 + 8 + 4096);
      pending := pending + [Record(sequence, flags, message[..size], call)];
    }

    method ForgetTransmit()
      requires Valid()
      modifies this
      ensures Valid() && State() == Step(old(State()), EForget)
    {
      hide Inv;
      StepInv(State(), EForget);
      log := Step(State(), EForget).log;
      if pending != [] { pending := pending[..|pending| - 1]; }
    }

    method ForgetTransmits()
      requires Valid()
      modifies this
      ensures Valid() && State() == Step(old(State()), EForgetAll)
    {
      hide Inv;
      StepInv(State(), EForgetAll);
      log := log.(open := []);
      pending := [];
    }

    method FlushReceive()
      requires Valid()
      modifies this, reassembler
      ensures Valid() && State() == Step(old(State()), EFlush)
    {
      hide Inv;
      StepInv(State(), EFlush);
      log := Flush(State()).log;
      frames, messages := [], [];
      reassembler.Reset();
      overflow, malformed := false, false;
    }

    method SetLoopback(enabled: bool)
      requires Valid()
      modifies this
      ensures Valid() && State() == Step(old(State()), ELoopback(enabled))
    {
      hide Inv;
      StepInv(State(), ELoopback(enabled));
      loopback := enabled;
    }

    method StopWith(code: int)
      requires Valid()
      modifies this
      ensures Valid() && State() == Step(old(State()), EStop(code))
    {
      hide Inv;
      StepInv(State(), EStop(code));
      log := Stop(State(), code).log;
      if stopped == 0 { stopped := code; }
      frames, messages, pending := [], [], [];
    }

    // One reader's turn at the queues: both loops of `read`, filling out[from..].
    method HandOut(out: array<Message>, from: nat, requested: nat) returns (count: nat)
      requires Valid() && from <= requested <= out.Length
      modifies this, out
      ensures Valid() && State() == Step(old(State()), EDrain(requested - from))
      ensures var took := old(Queue(State().rx))[..Min(requested - from, |old(Queue(State().rx))|)];
              count == from + |took| && Filled(protocol, out[..], old(out[..]), from, took)
    {
      hide Step, Inv, Filled;
      ghost var w := State();
      ghost var q := Queue(w.rx);
      StepInv(w, EDrain(requested - from));
      Reading.DrainStep(w, requested - from);
      OneQueue(w);
      count := from;
      ghost var took, none := [], [];
      if protocol == ISO15765 {
        count, took := HandOutMessages(out, count, requested);
        ghost var mid := out[..];
        assert log.delivered + [] == log.delivered;
        count, none := HandOutFrames(out, count, requested);
        assert none == [];
        FilledNothing(protocol, out[..], mid, count);
      } else {
        count, took := HandOutFrames(out, count, requested);
      }
      assert q[..|took|] == took && q[|took|..] == Queue(State().rx);
    }

    method HandOutMessages(out: array<Message>, from: nat, requested: nat) returns (count: nat, ghost took: seq<Item>)
      requires from <= requested <= out.Length && protocol == ISO15765
      modifies this`messages, this`log, out
      ensures old(messages) == took + messages && |took| == Min(requested - from, |old(messages)|) && count == from + |took|
      ensures log == old(log).(delivered := old(log.delivered) + took)
      ensures Filled(protocol, out[..], old(out[..]), from, took)
    {
      hide Presented;
      count, took := from, [];
      while messages != [] && count < requested
        invariant from <= count <= requested && count == from + |took| && old(messages) == took + messages
        invariant log == old(log).(delivered := old(log.delivered) + took)
        invariant Filled(protocol, out[..], old(out[..]), from, took)
      {
        FilledNext(protocol, out[..], old(out[..]), from, took, messages[0]);
        MoveOver(took, messages);
        out[count] := Presented(protocol, messages[0]);
        took := took + [messages[0]];
        log := log.(delivered := log.delivered + [messages[0]]);
        messages := messages[1..];
        count := count + 1;
      }
    }

    method HandOutFrames(out: array<Message>, from: nat, requested: nat) returns (count: nat, ghost took: seq<Item>)
      requires from <= requested <= out.Length && (protocol == ISO15765 ==> frames == [])
      modifies this`frames, this`log, out
      ensures old(frames) == took + frames && |took| == Min(requested - from, |old(frames)|) && count == from + |took|
      ensures log == old(log).(delivered := old(log.delivered) + took)
      ensures Filled(protocol, out[..], old(out[..]), from, took)
    {
      hide Presented;
      count, took := from, [];
      while frames != [] && count < requested
        invariant from <= count <= requested && count == from + |took| && old(frames) == took + frames
        invariant log == old(log).(delivered := old(log.delivered) + took)
        invariant Filled(protocol, out[..], old(out[..]), from, took)
      {
        FilledNext(protocol, out[..], old(out[..]), from, took, frames[0]);
        MoveOver(took, frames);
        out[count] := Presented(protocol, frames[0]);
        took := took + [frames[0]];
        log := log.(delivered := log.delivered + [frames[0]]);
        frames := frames[1..];
        count := count + 1;
      }
    }

    // Another thread's critical section.
    method Interfere(e: Event)
      requires Valid()
      modifies this, reassembler
      ensures Valid() && State() == Step(old(State()), e)
    {
      match e
      case EReceive(body) => Receive(body);
      case ENote(write) =>
        NoteTransmit(write.record.message, write.record.flags, write.record.sequence, write.record.call, write.alloc);
      case EForget => ForgetTransmit();
      case EForgetAll => ForgetTransmits();
      case EFlush => FlushReceive();
      case ELoopback(enabled) => SetLoopback(enabled);
      case EStop(code) => StopWith(code);
      case EDrain(n) =>
        var elsewhere := new Message[n](i => Message(0, 0, 0, 0, 0, []));
        var got := HandOut(elsewhere, 0, n);
      case EReport =>
        StepInv(State(), EReport);
        if overflow {
          overflow := false;
          log := log.(lost := 0);
        } else {
          malformed := false;
        }
    }

    method InterfereAll(events: seq<Event>)
      requires Valid()
      modifies this, reassembler
      ensures Valid() && State() == Run(old(State()), events)
    {
      ghost var w := State();
      for i := 0 to |events|
        invariant Valid() && Run(w, events) == Run(State(), events[i..])
      {
        assert events[i..][0] == events[i] && events[i..][1..] == events[i + 1..];
        Interfere(events[i]);
      }
    }

    // script: what the other threads do at each wait; see Reading.Reads.
    method Read(out: array<Message>, requested: nat, timeout: nat, script: seq<seq<Event>>)
      returns (count: nat, status: Reading.Status)
      requires Valid() && requested <= out.Length
      modifies this, reassembler, out
      ensures Valid()
      ensures var r := Reading.Reads(old(State()), requested, timeout > 0, script, []);
              && State() == r.world && status == r.status && count == |r.out| <= out.Length
              && out[..count] == AllPresented(protocol, r.out) && out[count..] == old(out[count..])
    {
      hide Reading.Reads, Run, Inv, Filled, AllPresented, Step, Drain, Report;
      ghost var w, clean := State(), out[..];
      FilledNothing(protocol, out[..], clean, 0);
      ghost var sofar: seq<Item> := [];
      var waits := script;
      count := 0;
      while count < requested
        invariant Valid() && |sofar| == count <= requested
        invariant Filled(protocol, out[..], clean, 0, sofar)
        invariant Reading.Reads(w, requested, timeout > 0, script, [])
               == Reading.Reads(State(), requested, timeout > 0, waits, sofar)
        decreases |waits|, requested - count
      {
        Reading.ReadsEnd(State(), requested, timeout > 0, waits, sofar);
        if stopped != 0 {
          FilledMeans(protocol, out[..], clean, sofar);
          return count, Reading.Stopped(stopped);
        }
        ghost var before, had := State(), sofar;
        ghost var q := Queue(State().rx);
        ghost var took := q[..Min(requested - count, |q|)];
        ghost var mid := out[..];
        Reading.DrainStep(State(), requested - count);
        count := HandOut(out, count, requested);
        sofar := sofar + took;
        FilledMore(protocol, out[..], mid, clean, had, took);
        if count == requested || timeout == 0 || overflow || malformed { break; }
        if waits == [] { break; }
        ghost var left := waits;
        InterfereAll(waits[0]);
        waits := waits[1..];
        if !(stopped != 0 || (if protocol == ISO15765 then messages != [] else frames != []) || overflow || malformed) {
          break;
        }
        Reading.ReadsOn(before, requested, timeout > 0, left, had);
      }
      Reading.ReadsEnd(State(), requested, timeout > 0, waits, sofar);
      FilledMeans(protocol, out[..], clean, sofar);
      status := Conclude(sofar, count, requested, timeout);
    }

    // The end of a read that was not stopped: the loss flags are taken and decide first.
    method Conclude(ghost sofar: seq<Item>, count: nat, requested: nat, timeout: nat) returns (status: Reading.Status)
      requires Valid() && count == |sofar|
      modifies this`overflow, this`malformed, this`log
      ensures Valid() && State() == Report(old(State()))
      ensures status == Reading.Verdict(old(State().rx), sofar, requested, timeout > 0)
    {
      hide Inv;
      Reading.ReportInv(State());
      if overflow {
        overflow := false;
        log := log.(lost := 0);
        return Reading.Overflow;
      }
      if malformed {
        malformed := false;
        return Reading.Malformed;
      }
      status := if count == 0 then Reading.Empty
                else if timeout > 0 && count < requested then Reading.Timeout else Reading.Ok;
    }
  }
}
