// src/can.cpp: what each thing a receiver is told does to what a reader gets, octet by octet and bit by bit.
module Receiving {
  import opened Bytes
  import opened Can
  import Codec
  import IsoTp
  import R = Reading

  // ---------------------------------------------------------------- bits

  // x without its n lowest bits, and a with n zeros below it.
  function Down(x: nat, n: nat): nat {
    if n == 0 then x else Down(x / 2, n - 1)
  }

  function Up(a: nat, n: nat): nat {
    if n == 0 then a else 2 * Up(a, n - 1)
  }

  lemma {:induction false} BitsAbove(x: nat, n: nat, k: nat)
    ensures Bit(x, n + k) == Bit(Down(x, n), k)
  {
    if n > 0 { BitsAbove(x / 2, n - 1, k); }
  }

  lemma {:induction false} BitsOfShifted(a: nat, n: nat, k: nat)
    ensures Bit(Up(a, n), k) == if k < n then 0 else Bit(a, k - n)
  {
    if n > 0 && k > 0 { BitsOfShifted(a, n - 1, k - 1); }
  }

  lemma {:induction false} DownDown(x: nat, m: nat, n: nat)
    ensures Down(x, m + n) == Down(Down(x, m), n)
  {
    if m > 0 { DownDown(x / 2, m - 1, n); }
  }

  lemma {:induction false} UpUp(a: nat, m: nat, n: nat)
    ensures Up(a, m + n) == Up(Up(a, m), n)
  {
    if n > 0 { UpUp(a, m, n - 1); }
  }

  lemma DownFour(x: nat)
    ensures Down(x, 2) == x / 4 && Down(x, 4) == x / 16
  {
    assert Down(x, 2) == Down(x / 2, 1) == Down(x / 2 / 2, 0);
    var y := x / 4;
    assert Down(y, 2) == Down(y / 2, 1) == Down(y / 2 / 2, 0);
    DownDown(x, 2, 2);
  }

  lemma DownEight(x: nat)
    ensures Down(x, 8) == x / 0x100
  {
    hide Down;
    DownFour(x);
    DownFour(x / 16);
    DownDown(x, 4, 4);
  }

  lemma DownThirty(x: nat)
    ensures Down(x, 30) == x / 0x4000_0000
  {
    hide Down;
    DownEight(x);
    DownEight(x / 0x100);
    DownDown(x, 8, 8);
    DownEight(x / 0x1_0000);
    DownDown(x, 16, 8);
    DownFour(x / 0x100_0000);
    DownDown(x, 24, 4);
    DownFour(x / 0x1000_0000);
    DownDown(x, 28, 2);
  }

  lemma UpFour(a: nat)
    ensures Up(a, 3) == 8 * a && Up(a, 4) == 16 * a
  {
    assert Up(a, 1) == 2 * Up(a, 0) && Up(a, 2) == 2 * Up(a, 1) && Up(a, 3) == 2 * Up(a, 2);
  }

  lemma UpSome(a: nat)
    ensures Up(a, 7) == 0x80 * a && Up(a, 8) == 0x100 * a && Up(a, 21) == 0x20_0000 * a
  {
    hide Up;
    UpFour(a);
    UpFour(8 * a);
    UpUp(a, 3, 4);
    UpFour(16 * a);
    UpUp(a, 4, 4);
    UpFour(0x100 * a);
    UpUp(a, 8, 4);
    UpFour(0x1000 * a);
    UpUp(a, 12, 4);
    UpTwenty(a);
  }

  lemma UpTwenty(a: nat)
    requires Up(a, 16) == 0x1_0000 * a
    ensures Up(a, 21) == 0x20_0000 * a
  {
    UpFour(0x1_0000 * a);
    UpUp(a, 16, 4);
  }

  // Of a raw frame's status word, bits 31, 30 and 8 reach the reader as they are, and no other does.
  lemma KeptBits(x: u32, k: nat)
    requires k < 32
    ensures Bit(KeptStatus(x), k) == if k == 8 || k == 30 || k == 31 then Bit(x, k) else 0
  {
    hide Bit, Down, Up;
    var q: nat, b: nat := x / 0x4000_0000, x / 0x100 % 2;
    var upper := q * 0x20_0000 * 2 + b;
    assert KeptStatus(x) == 0x100 * upper;
    UpSome(upper);
    BitsOfShifted(upper, 8, k);
    if k == 8 {
      BitsAbove(x, 8, 0);
      DownEight(x);
      LowBit(upper);
      LowBit(x / 0x100);
    } else if k > 8 {
      NextBit(upper, k - 9);
      assert upper / 2 == 0x20_0000 * q;
      UpSome(q);
      BitsOfShifted(q, 21, k - 9);
      if k >= 30 {
        BitsAbove(x, 30, k - 30);
        DownThirty(x);
      }
    }
  }

  lemma LowBit(x: nat)
    ensures Bit(x, 0) == x % 2
  {
  }

  lemma NextBit(x: nat, k: nat)
    ensures Bit(x, k + 1) == Bit(x / 2, k)
  {
  }

  // ---------------------------------------------------------------- the queue

  lemma Capacities(rx: Rx)
    ensures rx.protocol == 6 ==> Capacity(rx) == 256 && Queue(rx) == rx.messages
    ensures rx.protocol != 6 ==> Capacity(rx) == 4096 && Queue(rx) == rx.frames
  {
  }

  // Entries offered to the queue join it in order as far as there is room; the rest is lost, and the loss is
  // flagged exactly then.
  lemma {:induction false} OfferExactly(w: World, items: seq<Item>)
    requires |Queue(w.rx)| <= Capacity(w.rx)
    ensures var k := Min(Capacity(w.rx) - |Queue(w.rx)|, |items|);
            && Offer(w, items).rx
               == WithQueue(w.rx, Queue(w.rx) + items[..k]).(overflow := w.rx.overflow || k < |items|)
            && Offer(w, items).log
               == w.log.(arrived := w.log.arrived + items[..k], lost := w.log.lost + if k < |items| then 1 else 0)
    decreases |items|
  {
    hide Queue, WithQueue, Capacity;
    var q := Queue(w.rx);
    if items == [] || |q| == Capacity(w.rx) {
      assert q + items[..0] == q && w.log.arrived + items[..0] == w.log.arrived;
      QueueItself(w.rx);
    } else {
      var rx := WithQueue(w.rx, q + [items[0]]);
      QueueReplaced(w.rx, q + [items[0]]);
      OfferExactly(w.(rx := rx, log := w.log.(arrived := w.log.arrived + [items[0]])), items[1..]);
      var k := Min(Capacity(w.rx) - |q|, |items|);
      TakeCons(q, items, k);
      TakeCons(w.log.arrived, items, k);
    }
  }

  lemma QueueItself(rx: Rx)
    ensures WithQueue(rx, Queue(rx)) == rx
    ensures rx.(overflow := true) == WithQueue(rx, Queue(rx)).(overflow := true)
  {
  }

  lemma QueueReplaced(rx: Rx, q: seq<Item>)
    ensures var v := WithQueue(rx, q);
            && Queue(v) == q && Capacity(v) == Capacity(rx) && v.overflow == rx.overflow
            && forall p :: WithQueue(v, p) == WithQueue(rx, p)
  {
  }

  lemma TakeCons(q: seq<Item>, items: seq<Item>, k: nat)
    requires 0 < k <= |items|
    ensures (q + [items[0]]) + items[1..][..k - 1] == q + items[..k]
  {
  }

  // ---------------------------------------------------------------- what the adapter reports

  // A body from the channel's own node: 0x0501 for raw CAN, 0x0601 for ISO15765.
  predicate FromChannel(rx: Rx, body: Bytes) {
    && |body| >= 12 && Le16(body, 0) == 0
    && ((rx.protocol == 5 && Le16(body, 2) == 0x0501) || (rx.protocol == 6 && Le16(body, 2) == 0x0601))
  }

  // The two loss indications raise the overflow flag and do nothing else; a transmit-done indication confirms the
  // write under its sequence at its timestamp; no other indication does anything.
  lemma Indications(w: World, body: Bytes)
    requires |w.log.open| == |w.rx.pending| && w.rx.stopped == 0
    requires FromChannel(w.rx, body) && Le16(body, 4) == 10 && |body| >= 20
    ensures Le32(body, 12) == 0x10b || Le32(body, 12) == 0x119 ==> Receive(w, body) == w.(rx := w.rx.(overflow := true))
    ensures Le32(body, 12) == 0x106 ==> Receive(w, body) == Confirm(w, Le16(body, 6), Le32(body, 16))
    ensures Le32(body, 12) !in {0x10b, 0x119, 0x106} ==> Receive(w, body) == w
  {
    hide Confirm;
  }

  // A data frame whose lengths do not agree raises the malformed flag and does nothing else.
  lemma MalformedFrame(w: World, body: Bytes)
    requires |w.log.open| == |w.rx.pending| && w.rx.stopped == 0
    requires FromChannel(w.rx, body) && Le16(body, 4) == 9
    requires |body| < 24 || Le16(body, 22) < 4 || Le16(body, 22) > 12 || |body| != 24 + Le16(body, 22)
    ensures Receive(w, body) == w.(rx := w.rx.(malformed := true))
  {
  }

  // A stopped receiver, and any receiver given something shorter than a header, addressed elsewhere, from another
  // node or of another kind, takes no notice.
  lemma Unheeded(w: World, body: Bytes)
    requires |w.log.open| == |w.rx.pending| && (w.rx.protocol == 5 || w.rx.protocol == 6)
    requires w.rx.stopped != 0 || !FromChannel(w.rx, body) || (Le16(body, 4) != 9 && Le16(body, 4) != 10)
             || (Le16(body, 4) == 10 && |body| < 20)
    ensures Receive(w, body) == w
  {
  }

  // ---------------------------------------------------------------- confirmed writes

  // The position of the record a confirmation pairs with.
  predicate PairsAt(w: World, sequence: u16, i: nat) {
    && i < |w.rx.pending| && w.rx.pending[i].sequence == sequence
    && forall j :: 0 <= j < i ==> w.rx.pending[j].sequence != sequence
  }

  // With room for two, a confirmed ISO15765 write shows as its ID alone, transmitted and done, under its own flags
  // and the confirmation's timestamp; with loopback on, the whole message follows, as transmitted.
  lemma ConfirmedIso(w: World, sequence: u16, timestamp: u32, i: nat)
    requires |w.log.open| == |w.rx.pending| && PairsAt(w, sequence, i)
    requires w.rx.protocol == 6 && |w.rx.messages| + 2 <= 256 && |w.rx.pending[i].message| >= 4
    ensures var sent := w.rx.pending[i];
            var v := Confirm(w, sequence, timestamp);
            var done := Item(9, timestamp, sent.message[..4], sent.flags);
            && v.rx.messages == w.rx.messages + (if w.rx.loopback then [done, Item(1, timestamp, sent.message, sent.flags)]
                                                 else [done])
            && v.rx.frames == w.rx.frames && v.rx.overflow == w.rx.overflow
  {
    hide Offer;
    assert FindSequence(w.rx.pending, sequence, 0) == i;
    var u := Unqueued(w, i);
    OfferExactly(u, Echo(w.rx, w.rx.pending[i], timestamp));
    var done := Item(9, timestamp, w.rx.pending[i].message[..4], w.rx.pending[i].flags);
    var whole := Item(1, timestamp, w.rx.pending[i].message, w.rx.pending[i].flags);
    assert [done] + [whole] == [done, whole] && [done] + [] == [done];
    assert [done, whole][..2] == [done, whole] && [done][..1] == [done];
  }

  // The world Confirm queues the echo in.
  function Unqueued(w: World, i: nat): World
    requires |w.log.open| == |w.rx.pending| && i < |w.rx.pending|
  {
    var counted := match w.rx.pending[i].call
      case None => w.rx.confirmed
      case Some(c) => w.rx.confirmed[c := Confirmed(w.rx, c) + 1];
    World(w.rx.(pending := w.rx.pending[i + 1..], confirmed := counted, transmitted := w.rx.transmitted + 1),
          w.log.(open := w.log.open[i + 1..], paired := w.log.paired + [w.log.open[i]]))
  }

  // A confirmed raw frame shows only with loopback on, whole, under its own flags and the confirmation's
  // timestamp; its status says transmitted in bit 0, its identifier width in bit 8, and nothing else.
  lemma ConfirmedCan(w: World, sequence: u16, timestamp: u32, i: nat)
    requires |w.log.open| == |w.rx.pending| && PairsAt(w, sequence, i)
    requires w.rx.protocol == 5 && |w.rx.frames| < 4096
    ensures var sent := w.rx.pending[i];
            var v := Confirm(w, sequence, timestamp);
            && v.rx.messages == w.rx.messages && v.rx.overflow == w.rx.overflow
            && (!w.rx.loopback || |sent.message| < 4 || |sent.message| > 12 ==> v.rx.frames == w.rx.frames)
            && (w.rx.loopback && 4 <= |sent.message| <= 12 ==>
                  exists status: u32 ::
                    && v.rx.frames == w.rx.frames + [Item(status, timestamp, sent.message, sent.flags)]
                    && (forall k :: 0 <= k < 32 ==>
                          Bit(status, k) == if k == 0 then 1 else if k == 8 then Bit(sent.flags, 8) else 0))
  {
    hide Offer, Bit;
    assert FindSequence(w.rx.pending, sequence, 0) == i;
    var sent, shown := w.rx.pending[i], Echo(w.rx, w.rx.pending[i], timestamp);
    OfferExactly(Unqueued(w, i), shown);
    assert shown[..|shown|] == shown;
    assert w.rx.frames + [] == w.rx.frames;
    if w.rx.loopback && 4 <= |sent.message| <= 12 {
      var b := sent.flags / 0x100 % 2;
      var status: u32 := if b == 1 then 0x101 else 1;
      assert shown == [Item(status, timestamp, sent.message, sent.flags)];
      forall k | 0 <= k < 32
        ensures Bit(status, k) == if k == 0 then 1 else if k == 8 then Bit(sent.flags, 8) else 0
      {
        EchoBits(sent.flags, k);
      }
    }
  }

  lemma EchoBits(flags: u32, k: nat)
    requires k < 32
    ensures var b := flags / 0x100 % 2;
            Bit(if b == 1 then 0x101 else 1, k) == if k == 0 then 1 else if k == 8 then Bit(flags, 8) else 0
  {
    hide Bit, Down, Up;
    var b: nat := flags / 0x100 % 2;
    BitsAbove(flags, 8, 0);
    DownEight(flags);
    LowBit(flags / 0x100);
    var status: nat := if b == 1 then 0x101 else 1;
    if k == 0 {
      LowBit(status);
    } else {
      NextBit(status, k - 1);
      assert status / 2 == 0x80 * b;
      UpSome(b);
      BitsOfShifted(b, 7, k - 1);
      if k == 8 { LowBit(b); } else if k > 8 { NextBit(b, k - 9); ZeroBits(k - 9); }
    }
  }

  lemma {:induction false} ZeroBits(k: nat)
    ensures Bit(0, k) == 0
  {
    if k > 0 { ZeroBits(k - 1); }
  }

  // ---------------------------------------------------------------- the other steps

  // CLEAR_RX_BUFFER: nothing is left to read, no conversation is half done, no loss is reported; what waits for
  // confirmation and the loopback setting stay.
  lemma FlushForgets(w: World)
    requires |w.log.open| == |w.rx.pending|
    ensures var v := Step(w, EFlush).rx;
            && v.frames == [] && v.messages == [] && v.table == [] && !v.overflow && !v.malformed
            && v.pending == w.rx.pending && v.confirmed == w.rx.confirmed && v.transmitted == w.rx.transmitted
            && v.loopback == w.rx.loopback && v.stopped == w.rx.stopped
  {
  }

  // Stopping: nothing is left to read or to confirm, and the first reason given stays.
  lemma StopEnds(w: World, code: int)
    requires |w.log.open| == |w.rx.pending| && code != 0
    ensures var v := Step(w, EStop(code)).rx;
            && v.frames == [] && v.messages == [] && v.pending == [] && v.stopped != 0
            && (w.rx.stopped == 0 ==> v.stopped == code) && (w.rx.stopped != 0 ==> v.stopped == w.rx.stopped)
            && v.confirmed == w.rx.confirmed
  {
  }

  // Noting: the new record is the newest; of 256 only the oldest gives way to it.
  lemma NoteKeepsNewest(w: World, write: Write)
    requires |w.log.open| == |w.rx.pending| <= 256
    ensures var v := Step(w, ENote(write)).rx.pending;
            && |v| <= 256 && v != [] && v[|v| - 1] == Stored(write).record
            && v[|v| - 1].sequence == write.record.sequence && v[|v| - 1].call == write.record.call
            && (|w.rx.pending| < 256 ==> v[..|v| - 1] == w.rx.pending)
            && (|w.rx.pending| == 256 ==> v[..|v| - 1] == w.rx.pending[1..])
  {
  }

  // Taking back a refused write removes the newest record; CLEAR_TX_BUFFER removes them all.
  lemma ForgetTakesNewest(w: World)
    requires |w.log.open| == |w.rx.pending|
    ensures w.rx.pending != [] ==> Step(w, EForget).rx.pending == w.rx.pending[..|w.rx.pending| - 1]
    ensures Step(w, EForgetAll).rx.pending == []
    ensures Queue(Step(w, EForget).rx) == Queue(w.rx) && Queue(Step(w, EForgetAll).rx) == Queue(w.rx)
  {
  }

  // ---------------------------------------------------------------- reading

  // A read leaves nothing unread: it takes the queue's front up to what is asked for, and it ends with less only
  // when the queue is empty.
  lemma {:induction false} ReadTakesAll(w: World, requested: nat, timed: bool, script: seq<seq<Event>>, out: seq<Item>)
    requires |w.log.open| == |w.rx.pending| && |out| <= requested
    ensures var r := R.Reads(w, requested, timed, script, out);
            && out <= r.out && |r.out| <= requested
            && (w.rx.stopped == 0 ==> out + Queue(w.rx)[..Min(requested - |out|, |Queue(w.rx)|)] <= r.out)
            && (!r.status.Stopped? ==> |r.out| == requested || Queue(r.world.rx) == [])
    decreases |script|
  {
    hide Run;
    if |out| < requested && w.rx.stopped == 0 {
      var n := requested - |out|;
      var got := out + Queue(w.rx)[..Min(n, |Queue(w.rx)|)];
      var w1 := Drain(w, n);
      if !(|got| == requested || !timed || w1.rx.overflow || w1.rx.malformed || script == []) {
        var w2 := Run(w1, script[0]);
        if R.Wakes(w2.rx) { ReadTakesAll(w2, requested, timed, script[1..], got); }
      }
    } else {
      assert out + Queue(w.rx)[..0] == out;
    }
  }

  // How a read answers. A stopped channel interrupts it. Otherwise, by what holds when it ends: a loss first, then
  // a malformed frame; then empty if it has nothing, and timeout if it was to wait and has less than asked for.
  // An answer other than a loss or a malformed frame means that neither was pending.
  lemma {:induction false} ReadAnswers(w: World, requested: nat, timed: bool, script: seq<seq<Event>>, out: seq<Item>)
      returns (last: World)
    requires |w.log.open| == |w.rx.pending| && |out| <= requested
    ensures var r := R.Reads(w, requested, timed, script, out);
            && (r.status.Stopped? ==> r.world == last && last.rx.stopped != 0 && r.status.code == last.rx.stopped)
            && (!r.status.Stopped? ==>
                  && (r.status == R.Overflow <==> last.rx.overflow)
                  && (r.status == R.Malformed <==> !last.rx.overflow && last.rx.malformed)
                  && (r.status == R.Empty <==> !last.rx.overflow && !last.rx.malformed && r.out == [])
                  && (r.status == R.Timeout <==>
                        !last.rx.overflow && !last.rx.malformed && timed && 0 < |r.out| < requested)
                  && r.world.rx == last.rx.(overflow := false,
                                            malformed := last.rx.malformed && last.rx.overflow))
    decreases |script|
  {
    hide Run;
    last := w;
    if |out| < requested && w.rx.stopped == 0 {
      var n := requested - |out|;
      var got := out + Queue(w.rx)[..Min(n, |Queue(w.rx)|)];
      var w1 := Drain(w, n);
      if |got| == requested || !timed || w1.rx.overflow || w1.rx.malformed || script == [] {
        last := w1;
      } else {
        var w2 := Run(w1, script[0]);
        if R.Wakes(w2.rx) {
          last := ReadAnswers(w2, requested, timed, script[1..], got);
        } else {
          last := w2;
        }
      }
    }
  }

  // A loss already flagged is what the next read reports, with what it could still take.
  lemma LossReported(w: World, requested: nat, timed: bool, script: seq<seq<Event>>)
    requires |w.log.open| == |w.rx.pending| && w.rx.stopped == 0 && w.rx.overflow && requested > 0
    ensures var r := R.Reads(w, requested, timed, script, []);
            && r.status == R.Overflow && r.out == Queue(w.rx)[..Min(requested, |Queue(w.rx)|)]
            && !r.world.rx.overflow
  {
    var q := Queue(w.rx)[..Min(requested, |Queue(w.rx)|)];
    assert [] + q == q;
  }

  // A stopped channel's reason is the answer of every read.
  lemma StopReported(w: World, requested: nat, timed: bool, script: seq<seq<Event>>)
    requires |w.log.open| == |w.rx.pending| && w.rx.stopped != 0 && requested > 0
    ensures R.Reads(w, requested, timed, script, []) == R.ReadResult(w, [], R.Stopped(w.rx.stopped))
  {
  }
}
