// src/can.cpp, CanReceiver::read: a reader that may wait, and what other threads do while it does.
module Reading {
  import opened Bytes
  import opened Can

  datatype Status = Ok | Stopped(code: int) | Overflow | Malformed | Empty | Timeout

  datatype ReadResult = ReadResult(world: World, out: seq<Item>, status: Status)

  predicate Wakes(rx: Rx) {
    rx.stopped != 0 || Queue(rx) != [] || rx.overflow || rx.malformed
  }

  // How a read that runs to completion answers.
  function Verdict(rx: Rx, out: seq<Item>, requested: nat, timed: bool): Status {
    if rx.overflow then Overflow
    else if rx.malformed then Malformed
    else if out == [] then Empty
    else if timed && |out| < requested then Timeout
    else Ok
  }

  function Finish(w: World, out: seq<Item>, requested: nat, timed: bool): ReadResult {
    ReadResult(Report(w), out, Verdict(w.rx, out, requested, timed))
  }

  // `script`: for each wait in turn, what the other threads do before this one holds the lock again. A wait
  // that ends with nothing to wake for is a wait whose deadline passed; so is one the script says nothing of.
  function Reads(w: World, requested: nat, timed: bool, script: seq<seq<Event>>, out: seq<Item>): ReadResult
    requires |w.log.open| == |w.rx.pending|
    decreases |script|
  {
    if |out| >= requested then Finish(w, out, requested, timed)
    else if w.rx.stopped != 0 then ReadResult(w, out, Stopped(w.rx.stopped))
    else
      var n := requested - |out|;
      var got := out + Queue(w.rx)[..Min(n, |Queue(w.rx)|)];
      var w1 := Drain(w, n);
      if |got| == requested || !timed || w1.rx.overflow || w1.rx.malformed then Finish(w1, got, requested, timed)
      else if script == [] then Finish(w1, got, requested, timed)
      else
        var w2 := Run(w1, script[0]);
        if !Wakes(w2.rx) then Finish(w2, got, requested, timed)
        else Reads(w2, requested, timed, script[1..], got)
  }

  lemma {:induction false} RunAppend(w: World, a: seq<Event>, b: seq<Event>)
    requires |w.log.open| == |w.rx.pending|
    ensures Run(w, a + b) == Run(Run(w, a), b)
    decreases |a|
  {
    if a == [] {
      assert a + b == b;
    } else {
      assert (a + b)[1..] == a[1..] + b;
      RunAppend(Step(w, a[0]), a[1..], b);
    }
  }

  lemma RunOne(w: World, e: Event)
    requires |w.log.open| == |w.rx.pending|
    ensures Run(w, [e]) == Step(w, e)
  {
    assert [e][1..] == [];
    assert Run(Step(w, e), []) == Step(w, e);
  }

  // Steps other than another reader's, a flush or a stop.
  predicate Solo(e: Event) {
    e.EReceive? || e.ENote? || e.EForget? || e.EForgetAll? || e.ELoopback?
  }

  lemma {:induction false} OfferArrives(w: World, items: seq<Item>)
    ensures Offer(w, items).log.lost >= w.log.lost && w.log.arrived <= Offer(w, items).log.arrived
    decreases |items|
  {
    if items != [] && |Queue(w.rx)| != Capacity(w.rx) {
      OfferArrives(w.(rx := WithQueue(w.rx, Queue(w.rx) + [items[0]]),
                      log := w.log.(arrived := w.log.arrived + [items[0]])), items[1..]);
    }
  }

  // Such a step delivers nothing, takes back nothing that arrived and reports no loss.
  lemma SoloStep(w: World, e: Event)
    requires |w.log.open| == |w.rx.pending| && Solo(e)
    ensures var v := Step(w, e);
            v.log.delivered == w.log.delivered && w.log.arrived <= v.log.arrived && v.log.lost >= w.log.lost
  {
    if e.EReceive? {
      var body := e.body;
      if Addressed(w.rx, body) {
        if Le16(body, 4) == 10 {
          if |body| >= 20 && Le32(body, 12) == 0x106 { SoloConfirm(w, Le16(body, 6), Le32(body, 16)); }
        } else if WellSized(body) {
          SoloFrame(w, body);
        }
      }
    }
  }

  lemma SoloFrame(w: World, body: Bytes)
    requires |w.log.open| == |w.rx.pending| && Addressed(w.rx, body) && Le16(body, 4) == 9 && WellSized(body)
    ensures var v := Receive(w, body);
            v.log.delivered == w.log.delivered && w.log.arrived <= v.log.arrived && v.log.lost >= w.log.lost
  {
    if w.rx.protocol == ISO15765 {
      var u := w.(rx := w.rx.(table := IsoTp.After(w.rx.table, body[24..])));
      var items := Lifted(IsoTp.Reported(w.rx.table, body[24..]), Le32(body, 16));
      OfferFrame(u, items);
      OfferArrives(u, items);
    } else {
      var items := [Item(KeptStatus(Le32(body, 12)), Le32(body, 16), body[24..], 0)];
      OfferFrame(w, items);
      OfferArrives(w, items);
    }
  }

  lemma SoloConfirm(w: World, sequence: u16, timestamp: u32)
    requires |w.log.open| == |w.rx.pending|
    ensures var v := Confirm(w, sequence, timestamp);
            v.log.delivered == w.log.delivered && w.log.arrived <= v.log.arrived && v.log.lost >= w.log.lost
  {
    var i := FindSequence(w.rx.pending, sequence, 0);
    if i < |w.rx.pending| {
      var sent := w.rx.pending[i];
      var counted := match sent.call
        case None => w.rx.confirmed
        case Some(c) => w.rx.confirmed[c := Confirmed(w.rx, c) + 1];
      var u := World(w.rx.(pending := w.rx.pending[i + 1..], confirmed := counted,
                           transmitted := w.rx.transmitted + 1),
                     w.log.(open := w.log.open[i + 1..], paired := w.log.paired + [w.log.open[i]]));
      OfferFrame(u, Echo(w.rx, sent, timestamp));
      OfferArrives(u, Echo(w.rx, sent, timestamp));
    }
  }

  // What a run of other steps has handed out: nothing but what its drains took.
  lemma {:induction false} SoloRun(w: World, events: seq<Event>)
    requires |w.log.open| == |w.rx.pending| && forall e :: e in events ==> Solo(e)
    ensures var v := Run(w, events);
            v.log.delivered == w.log.delivered && w.log.arrived <= v.log.arrived && v.log.lost >= w.log.lost
    decreases |events|
  {
    hide Step;
    if events != [] {
      SoloStep(w, events[0]);
      SoloRun(Step(w, events[0]), events[1..]);
    }
  }

  predicate FromScript(happened: seq<Event>, script: seq<seq<Event>>) {
    forall e :: e in happened ==> e.EDrain? || exists k :: 0 <= k < |script| && e in script[k]
  }

  // A read is a run. Whatever the others do at its waits, the read is a sequence of the receiver's own steps
  // from w to `last`, ending where the loss flags are taken; its answer follows the table in Verdict; and it
  // never hands out more than it was asked for.
  lemma {:induction false} ReadIsRun(w: World, requested: nat, timed: bool, script: seq<seq<Event>>, out: seq<Item>)
    returns (happened: seq<Event>, last: World)
    requires |w.log.open| == |w.rx.pending| && |out| <= requested
    ensures FromScript(happened, script) && last == Run(w, happened)
    ensures var r := Reads(w, requested, timed, script, out);
            && out <= r.out && |r.out| <= requested
            && (if r.status.Stopped? then r.world == last && r.status.code == last.rx.stopped != 0
                else r.world == Report(last) && r.status == Verdict(last.rx, r.out, requested, timed))
            && (!timed && !r.status.Stopped? && |out| < requested ==>
                  r.out == out + Queue(w.rx)[..Min(requested - |out|, |Queue(w.rx)|)])
            && (r.status == Ok && timed ==> |r.out| == requested)
    decreases |script|
  {
    hide Step;
    happened, last := [], w;
    var r := Reads(w, requested, timed, script, out);
    if |out| >= requested || w.rx.stopped != 0 {
      return;
    }
    var n := requested - |out|;
    var got := out + Queue(w.rx)[..Min(n, |Queue(w.rx)|)];
    var w1 := Drain(w, n);
    DrainStep(w, n);
    RunOne(w, EDrain(n));
    happened, last := [EDrain(n)], w1;
    if |got| == requested || !timed || w1.rx.overflow || w1.rx.malformed || script == [] {
      return;
    }
    var w2 := Run(w1, script[0]);
    RunAppend(w, [EDrain(n)], script[0]);
    happened, last := [EDrain(n)] + script[0], w2;
    if !Wakes(w2.rx) {
      return;
    }
    var more, end := ReadIsRun(w2, requested, timed, script[1..], got);
    RunAppend(w, happened, more);
    ReadsOn(w, requested, timed, script, out);
    forall e | e in more ensures e.EDrain? || exists k :: 0 <= k < |script| && e in script[k] {
      if !e.EDrain? {
        var k :| 0 <= k < |script[1..]| && e in script[1..][k];
        assert e in script[k + 1];
      }
    }
    happened, last := happened + more, end;
  }

  predicate SoloScript(script: seq<seq<Event>>) {
    forall k :: 0 <= k < |script| ==> forall e :: e in script[k] ==> Solo(e)
  }

  lemma {:induction false} ReadSolo(w: World, requested: nat, timed: bool, script: seq<seq<Event>>, out: seq<Item>)
    requires |w.log.open| == |w.rx.pending| && |out| <= requested && SoloScript(script)
    ensures var r := Reads(w, requested, timed, script, out);
            && out <= r.out
            && r.world.log.delivered == w.log.delivered + r.out[|out|..]
            && w.log.arrived <= r.world.log.arrived
    decreases |script|
  {
    hide Step, Run;
    if |out| >= requested || w.rx.stopped != 0 {
      assert w.log.delivered + [] == w.log.delivered;
      return;
    }
    var n := requested - |out|;
    var took := Queue(w.rx)[..Min(n, |Queue(w.rx)|)];
    var got, w1 := out + took, Drain(w, n);
    assert got[|out|..] == took;
    if |got| == requested || !timed || w1.rx.overflow || w1.rx.malformed || script == [] {
      return;
    }
    var w2 := Run(w1, script[0]);
    SoloRun(w1, script[0]);
    if Wakes(w2.rx) {
      assert forall k :: 0 <= k < |script[1..]| ==> script[1..][k] == script[k + 1];
      ReadSolo(w2, requested, timed, script[1..], got);
      ReadsOn(w, requested, timed, script, out);
      var r := Reads(w, requested, timed, script, out);
      assert r.out[|out|..] == took + r.out[|got|..];
      assert w.log.delivered + r.out[|out|..] == (w.log.delivered + took) + r.out[|got|..];
    }
  }

  lemma DrainStep(w: World, n: nat)
    requires |w.log.open| == |w.rx.pending|
    ensures Step(w, EDrain(n)) == Drain(w, n)
  {
  }

  lemma ReadsEnd(w: World, requested: nat, timed: bool, script: seq<seq<Event>>, out: seq<Item>)
    requires |w.log.open| == |w.rx.pending|
    ensures |out| >= requested ==>
              Reads(w, requested, timed, script, out) == Finish(w, out, requested, timed)
    ensures |out| < requested && w.rx.stopped != 0 ==>
              Reads(w, requested, timed, script, out) == ReadResult(w, out, Stopped(w.rx.stopped))
    ensures |out| < requested && w.rx.stopped == 0 ==>
              var n := requested - |out|;
              var got := out + Queue(w.rx)[..Min(n, |Queue(w.rx)|)];
              var w1 := Drain(w, n);
              && (|got| == requested || !timed || w1.rx.overflow || w1.rx.malformed || script == [] ==>
                    Reads(w, requested, timed, script, out) == Finish(w1, got, requested, timed))
              && (|got| < requested && timed && !w1.rx.overflow && !w1.rx.malformed && script != []
                  && !Wakes(Run(w1, script[0]).rx) ==>
                    Reads(w, requested, timed, script, out) == Finish(Run(w1, script[0]), got, requested, timed))
  {
  }

  lemma ReadsOn(w: World, requested: nat, timed: bool, script: seq<seq<Event>>, out: seq<Item>)
    requires |w.log.open| == |w.rx.pending| && |out| < requested && w.rx.stopped == 0 && script != []
    requires var n := requested - |out|;
             var w1 := Drain(w, n);
             && |out + Queue(w.rx)[..Min(n, |Queue(w.rx)|)]| < requested
             && timed && !w1.rx.overflow && !w1.rx.malformed && Wakes(Run(w1, script[0]).rx)
    ensures var n := requested - |out|;
            Reads(w, requested, timed, script, out)
            == Reads(Run(Drain(w, n), script[0]), requested, timed, script[1..],
                     out + Queue(w.rx)[..Min(n, |Queue(w.rx)|)])
  {
  }

  // First in, first out, and no silent loss. From any reachable state, a read during whose waits frames may
  // arrive and writes come and go, but which is the only reader: what has ever been handed out, then this
  // read's frames, then what is still queued, are the accepted arrivals in order. A read that runs to
  // completion answers with the overflow report whenever anything was dropped at capacity before it or while
  // it waited, and leaves no loss unreported.
  lemma ReadFifo(w: World, requested: nat, timed: bool, script: seq<seq<Event>>) returns (last: World)
    requires Inv(w) && SoloScript(script)
    ensures var r := Reads(w, requested, timed, script, []);
            && Inv(r.world)
            && w.log.delivered + r.out + Queue(r.world.rx) == r.world.log.arrived
            && w.log.arrived <= r.world.log.arrived
            && last.log.lost >= w.log.lost
            && (!r.status.Stopped? ==>
                  && r.world == Report(last) && r.world.log.lost == 0
                  && (last.log.lost > 0 ==> r.status == Overflow)
                  && r.status == Verdict(last.rx, r.out, requested, timed))
  {
    hide Reads, Run, Step;
    var happened;
    happened, last := ReadIsRun(w, requested, timed, script, []);
    RunInv(w, happened);
    ReportInv(last);
    ReadSolo(w, requested, timed, script, []);
    LossesStay(w, happened);
    var r := Reads(w, requested, timed, script, []);
    assert r.out[0..] == r.out;
  }

  lemma {:induction false} LossesStay(w: World, events: seq<Event>)
    requires |w.log.open| == |w.rx.pending| && forall e :: e in events ==> e.EDrain? || Solo(e)
    ensures Run(w, events).log.lost >= w.log.lost
    decreases |events|
  {
    hide Step;
    if events != [] {
      if events[0].EDrain? { DrainStep(w, events[0].n); } else { SoloStep(w, events[0]); }
      LossesStay(Step(w, events[0]), events[1..]);
    }
  }

  lemma ReportInv(w: World)
    requires Inv(w)
    ensures Inv(Report(w)) && Report(w).log.lost == 0
    ensures Queue(Report(w).rx) == Queue(w.rx) && Report(w).log.delivered == w.log.delivered
    ensures Report(w).log.arrived == w.log.arrived
  {
    PairKeep(w, Report(w), 0, |w.log.open|);
  }

  // With other readers, flushes and stops about as well, the invariant still holds, and no completing read
  // leaves a loss behind it unreported.
  lemma ReadAmongOthers(w: World, requested: nat, timed: bool, script: seq<seq<Event>>)
    requires Inv(w)
    ensures var r := Reads(w, requested, timed, script, []);
            && Inv(r.world) && |r.out| <= requested
            && (forall m :: m in r.out ==> |m.data| <= DATA_FIELD)
            && (!r.status.Stopped? ==> r.world.log.lost == 0)
  {
    hide Reads, Run, Step;
    var happened, last := ReadIsRun(w, requested, timed, script, []);
    RunInv(w, happened);
    ReportInv(last);
    ReadFits(w, requested, timed, script, []);
  }

  lemma {:induction false} ReadFits(w: World, requested: nat, timed: bool, script: seq<seq<Event>>, out: seq<Item>)
    requires Inv(w) && forall m :: m in out ==> |m.data| <= DATA_FIELD
    ensures forall m :: m in Reads(w, requested, timed, script, out).out ==> |m.data| <= DATA_FIELD
    decreases |script|
  {
    hide Run, Step;
    if |out| < requested && w.rx.stopped == 0 {
      var n := requested - |out|;
      var got := out + Queue(w.rx)[..Min(n, |Queue(w.rx)|)];
      var w1 := Drain(w, n);
      StepInv(w, EDrain(n));
      DrainStep(w, n);
      if !(|got| == requested || !timed || w1.rx.overflow || w1.rx.malformed || script == []) {
        var w2 := Run(w1, script[0]);
        RunInv(w1, script[0]);
        if Wakes(w2.rx) {
          ReadFits(w2, requested, timed, script[1..], got);
        }
      }
    }
  }
}
