// What becomes of periodic messages when a channel or a device is closed: what Disconnect and Close promise about
// the adapter's table 4, and exactly when Close does not keep it.
module Periodics {
  import opened Bytes
  import Can
  import Config
  import opened J2534

  // A Disconnect that gets past the lookup either succeeds, with the channel closed, no filters left, and nothing
  // in the periodic table that was not found there; or it forces a reopen. If the host held or suspected a
  // periodic message it cannot succeed without an accepted clear, which leaves that table empty.
  lemma DisconnectClears(d: Device, channel: nat, cleared: Reply, shut: Reply)
    requires Inv(d) && !d.closed && channel != 0 && d.channel == channel
    ensures var o := Disconnect(d, channel, cleared, shut);
            && (o.code == 0 ==> !o.d.adapter.open && o.d.adapter.filters == {})
            && (o.code == 0 ==> o.d.adapter.periodic <= d.found.periodic)
            && (o.code == 0 && HadPeriodic(d) ==> o.d.adapter.periodic == {})
            && (o.code != 0 ==> o.d.reopen)
            && (HadPeriodic(d) && Code(Retire(d), cleared) != 0 ==> o.code != 0)
            && (HadPeriodic(d) && o.code == 0 ==> Effective(Retire(d), cleared).Answered?)
  {
    hide OnChannel, Code, Effective, Tracked, OneEntryEach;
    var d1 := Retire(d);
    ClearOutcome(d1, cleared);
    CommandOutcome(d1, Clear(TABLE_PERIODIC), cleared);
    var d2 := if HadPeriodic(d) then ClearPeriodicTable(d1, cleared) else d1;
    CommandOutcome(d2, CloseChannel, shut);
    NothingTracked();
  }

  // A Close that succeeds now will leave nothing in the periodic table but what was found there: either it will
  // clear the table, or there is nothing else in it.
  predicate Covered(d: Device) {
    (d.wireOpen && HadPeriodic(d)) || d.adapter.periodic <= d.found.periodic
  }

  predicate Kills(r: Reply) {
    r.Lost? || (r.Unsent? && r.dies)
  }

  // A Disconnect strands the periodic table. There is something in it that was not found there; the clear fails,
  // and not by a reply lost after the adapter acted. Then the handles are forgotten, and a later Close clears the
  // table only if a message is still suspected and the wire channel is still open; so it is stranded when
  // nothing is suspected, or when the channel close is accepted.
  predicate Strands(d: Device, op: Op) {
    && op.ODisconnect? && !d.closed && op.channel != 0 && d.channel == op.channel
    && HadPeriodic(d) && !(d.adapter.periodic <= d.found.periodic)
    && Code(d, op.cleared) != 0 && !(d.usable && op.cleared.Lost? && op.cleared.applied)
    && (!d.untracked || (d.usable && !Kills(op.cleared) && Accepted(op.shut) == 0))
  }

  predicate EverStrands(d: Device, ops: seq<Op>)
    decreases |ops|
  {
    ops != [] && (Strands(d, ops[0]) || EverStrands(Do(d, ops[0]).d, ops[1..]))
  }

  lemma StrandingIsReported(d: Device, op: Op)
    requires Inv(d) && Strands(d, op)
    ensures Do(d, op).code != 0 && Do(d, op).d.reopen
  {
    hide Disconnect, Inv, Accepted;
    DisconnectClears(d, op.channel, op.cleared, op.shut);
    assert Code(Retire(d), op.cleared) == Code(d, op.cleared);
  }

  // A failed clear, exactly.
  lemma FailedClear(d: Device, r: Reply)
    requires Code(d, r) != 0
    ensures var e := ClearPeriodicTable(d, r);
            && e == d.(usable := d.usable && !Kills(r), reopen := e.reopen, adapter := e.adapter)
            && e.adapter == if d.usable && r.Lost? && r.applied then d.adapter.(periodic := {}) else d.adapter
  {
  }

  lemma AcceptedMeans(d: Device, r: Reply)
    ensures Code(d, r) == 0 <==> d.usable && Accepted(r) == 0
  {
  }

  lemma ConnectedIsCovered(d: Device)
    requires Inv(d) && d.channel != 0
    ensures Covered(d)
  {
    NothingTracked();
  }

  // A Disconnect leaves the device covered exactly when it does not strand the table; and if it does, a reopen is
  // required.
  lemma DisconnectCovers(d: Device, op: Op)
    requires Inv(d) && Covered(d) && op.ODisconnect?
    ensures var e := Do(d, op).d;
            (Covered(e) <==> !Strands(d, op)) && (Strands(d, op) ==> e.reopen)
  {
    hide OnChannel, Code, Effective, ClearPeriodicTable, Agree, Accepted;
    if !d.closed && op.channel != 0 && d.channel == op.channel {
      var d1 := Retire(d);
      ClearOutcome(d1, op.cleared);
      AcceptedMeans(d1, op.cleared);
      AcceptedMeans(d, op.cleared);
      if Code(d1, op.cleared) != 0 { FailedClear(d1, op.cleared); }
      var d2 := if HadPeriodic(d) then ClearPeriodicTable(d1, op.cleared) else d1;
      CommandOutcome(d2, CloseChannel, op.shut);
      AcceptedMeans(d2, op.shut);
      NothingTracked();
    }
  }

  // Any other operation but Close keeps it covered.
  lemma OthersCover(d: Device, op: Op)
    requires Inv(d) && Covered(d) && Grants(d, op) && !d.closed && !op.ODisconnect? && !op.OClose?
    ensures Covered(Do(d, op).d)
  {
    hide Do, Agree, Held;
    DoLeavesFound(d, op);
    if d.channel != 0 && !op.OConnect? {
      DoKeeps(d, op);
      ChannelStays(d, op);
      ConnectedIsCovered(Do(d, op).d);
    } else if op.OConnect? {
      ConnectCovers(d, op);
    } else {
      RefusedWhole(d, op);
    }
  }

  lemma ConnectCovers(d: Device, op: Op)
    requires Inv(d) && Covered(d) && !d.closed && op.OConnect?
    ensures Covered(Do(d, op).d)
  {
    hide Do, Held, Tracked, OneEntryEach;
    DoLeavesFound(d, op);
    if d.channel == 0 && !d.reopen {
      ConnectLeavesPeriodics(d, op);
    } else {
      ConnectRefused(d, op);
    }
  }

  lemma ConnectRefused(d: Device, op: Op)
    requires op.OConnect? && (d.channel != 0 || d.reopen)
    ensures Do(d, op).d == d
  {
    hide Open, ConnectRefusal;
    if ConnectRefusal(d, op.protocol, op.flags, op.baud) == 0 {
      RefusalCovers(d, op.protocol, op.flags, op.baud);
      assert false;
    }
  }

  lemma ConnectLeavesPeriodics(d: Device, op: Op)
    requires op.OConnect?
    ensures var e := Do(d, op).d;
            e.untracked == d.untracked && e.periodics == d.periodics && e.adapter.periodic == d.adapter.periodic
  {
    hide Open, ConnectRefusal;
    if Allocate(d, op.skip).Some? && ConnectRefusal(d, op.protocol, op.flags, op.baud) == 0 {
      RefusalCovers(d, op.protocol, op.flags, op.baud);
      OpenLeaves(Took(d, d.next + op.skip).(protocol := op.protocol), op, d.next + op.skip);
    }
  }

  lemma OpenLeaves(d: Device, op: Op, id: nat)
    requires op.OConnect?
    ensures var e := Open(d, id, op.flags, op.opening, op.setUp, op.stored, op.undone).d;
            e.untracked == d.untracked && e.periodics == d.periodics && e.adapter.periodic == d.adapter.periodic
  {
    hide OnChannel, Code, Effective;
    ChannelLeaves(d, OpenChannel, op.opening);
    var d1 := OnChannel(d, OpenChannel, op.opening).(wireOpen := true);
    ChannelLeaves(d1, SetUp, op.setUp);
    ChannelLeaves(OnChannel(d1, SetUp, op.setUp), CloseChannel, op.undone);
  }

  lemma ChannelLeaves(d: Device, c: Cmd, r: Reply)
    requires c.OpenChannel? || c.SetUp? || c.CloseChannel?
    ensures var e := OnChannel(d, c, r);
            e.untracked == d.untracked && e.periodics == d.periodics && e.adapter.periodic == d.adapter.periodic
  {
    hide OnChannel, Code, Effective;
    CommandOutcome(d, c, r);
  }

  // With the device closed, or without a channel, no operation but Connect and Close does anything; and Connect
  // does nothing when a reopen is required.
  lemma RefusedWhole(d: Device, op: Op)
    requires Booked(d) && (d.closed || (d.channel == 0 && (d.reopen || !op.OConnect?))) && !(op.OClose? && !d.closed)
    ensures Do(d, op).d == d.(usable := Do(d, op).d.usable)
  {
    hide OnChannel, Code, Effective, Send;
  }

  // Once stranded, the table stays as it is until Close.
  lemma StrandedStays(d: Device, op: Op)
    requires Inv(d) && !Covered(d) && d.reopen && !d.closed && !op.OClose?
    ensures !Covered(Do(d, op).d) && Do(d, op).d.reopen && !Strands(d, op)
  {
    hide Do, Agree, Held;
    if d.channel != 0 { ConnectedIsCovered(d); }
    RefusedWhole(d, op);
  }

  lemma {:induction false} ClosedStays(d: Device, ops: seq<Op>)
    requires Booked(d) && d.closed
    ensures RunOps(d, ops).closed
    decreases |ops|
  {
    hide Do;
    if ops != [] {
      RefusedWhole(d, ops[0]);
      ClosedStays(Do(d, ops[0]).d, ops[1..]);
    }
  }

  // Over a whole run on an open device, the device stays covered exactly when no Disconnect stranded the table.
  lemma {:induction false} CoveredIffNeverStranded(d: Device, ops: seq<Op>)
    requires Inv(d) && (Covered(d) || d.reopen) && AllGrant(d, ops) && !RunOps(d, ops).closed
    ensures Covered(RunOps(d, ops)) <==> Covered(d) && !EverStrands(d, ops)
    decreases |ops|
  {
    hide Do, Inv, Covered, Grants, Strands;
    if ops != [] {
      var op, e := ops[0], Do(d, ops[0]).d;
      DoKeeps(d, op);
      InvBooked(d);
      InvBooked(e);
      if d.closed {
        ClosedStays(d, ops);
      } else if op.OClose? {
        ClosedByClose(d, op);
        ClosedStays(e, ops[1..]);
      } else {
        if !Covered(d) {
          StrandedStays(d, op);
        } else if op.ODisconnect? {
          DisconnectCovers(d, op);
        } else {
          OthersCover(d, op);
          OnlyDisconnectStrands(d, op);
        }
        CoveredIffNeverStranded(e, ops[1..]);
      }
    }
  }

  lemma ClosedByClose(d: Device, op: Op)
    requires op.OClose?
    ensures Do(d, op).d.closed
  {
    CloseShape(d, op.cleared, op.shut, op.farewell);
  }

  lemma OnlyDisconnectStrands(d: Device, op: Op)
    requires !op.ODisconnect?
    ensures !Strands(d, op)
  {
  }

  // Every successful Close: it empties the periodic table if and only if it clears it, because the wire channel is
  // open and a message is held or suspected, or the table is empty already; and it leaves nothing there but what
  // was found if and only if the device was covered, which it is whenever a channel is connected.
  lemma CloseClearsIff(d: Device, cleared: Reply, shut: Reply, farewell: Reply)
    requires !d.closed && Close(d, cleared, shut, farewell).code == 0
    ensures var after := Close(d, cleared, shut, farewell).d.adapter.periodic;
            && (after == {} <==> (d.wireOpen && HadPeriodic(d)) || d.adapter.periodic == {})
            && (after <= d.found.periodic <==> Covered(d))
            && (Inv(d) && d.channel != 0 ==> after <= d.found.periodic)
  {
    hide OnChannel, Code, Effective, Send, ClearPeriodicTable, Inv;
    var d1 := Retire(d.(closed := true));
    ClearOutcome(d1, cleared);
    var d2 := if d.wireOpen && HadPeriodic(d) then ClearPeriodicTable(d1, cleared) else d1;
    CommandOutcome(d2, CloseChannel, shut);
    FarewellLeaves(CloseWire(d2, shut), farewell);
    if Inv(d) && d.channel != 0 { ConnectedIsCovered(d); }
  }

  lemma FarewellLeaves(d: Device, r: Reply)
    ensures Send(d, CloseDevice, r).adapter == d.adapter
  {
  }

  // The documentation promises that periodic messages are cleared before the channel is closed. Over every run on
  // a device, whatever state its adapter was found in, a successful Close leaves nothing in the periodic table but
  // what was found there if and only if no earlier Disconnect stranded it; so with nothing found there, the table
  // is empty if and only if none did.
  lemma SuccessfulCloseClears(next: nat, found: Adapter, ops: seq<Op>, cleared: Reply, shut: Reply, farewell: Reply)
    requires next > 0 && AllGrant(JustOpened(next, found), ops)
    requires var d := RunOps(JustOpened(next, found), ops);
             !d.closed && Close(d, cleared, shut, farewell).code == 0
    ensures var after := Close(RunOps(JustOpened(next, found), ops), cleared, shut, farewell).d.adapter.periodic;
            && (after <= found.periodic <==> !EverStrands(JustOpened(next, found), ops))
            && (found.periodic == {} ==> (after == {} <==> !EverStrands(JustOpened(next, found), ops)))
  {
    hide RunOps, AllGrant, EverStrands, Inv, Close;
    var start := JustOpened(next, found);
    StartsWell(next, found);
    FoundStays(start, ops);
    CoveredIffNeverStranded(start, ops);
    CloseClearsIff(RunOps(start, ops), cleared, shut, farewell);
  }

  // A run that strands it with nothing suspected: a channel with one periodic message is disconnected while the
  // adapter refuses both the clear and the channel close, and the Close that follows succeeds, closing the channel
  // with the message still in the table.
  lemma CloseCanLeaveAPeriodic()
    ensures var ops := [OConnect(Can.CAN, 0, 500000, 0, Answered(0, 20, 0), Answered(0, 20, 0), true,
                                 Unsent(false, 9)),
                        OStartPeriodic(2, 0, 0, Answered(0, 24, 7), true, Unsent(false, 9)),
                        ODisconnect(2, Answered(1, 20, 0), Answered(1, 20, 0))];
            var d := RunOps(JustOpened(2, CLEAN), ops);
            var o := Close(d, Answered(0, 20, 0), Answered(0, 20, 0), Answered(0, 20, 0));
            && AllGrant(JustOpened(2, CLEAN), ops) && !d.closed && d.wireOpen
            && o.code == 0 && !o.d.adapter.open && o.d.adapter.periodic == {7}
  {
    var connect := OConnect(Can.CAN, 0, 500000, 0, Answered(0, 20, 0), Answered(0, 20, 0), true, Unsent(false, 9));
    var start := OStartPeriodic(2, 0, 0, Answered(0, 24, 7), true, Unsent(false, 9));
    var disconnect := ODisconnect(2, Answered(1, 20, 0), Answered(1, 20, 0));
    hide RunOps, AllGrant, Do, Close;
    RunThree(JustOpened(2, CLEAN), connect, start, disconnect);
    ExampleConnect();
    ExampleStart();
    ExampleDisconnect();
    ExampleClose();
  }

  // A run that strands it by closing the wire channel: the reply to the start is too short to hold a handle, so
  // the message is suspected; the Disconnect's clear is refused and its channel close accepted. The Close that
  // follows finds no wire channel, so it neither clears nor closes anything, and succeeds.
  lemma CloseAfterShutChannelLeavesAPeriodic()
    ensures var ops := [OConnect(Can.CAN, 0, 500000, 0, Answered(0, 20, 0), Answered(0, 20, 0), true,
                                 Unsent(false, 9)),
                        OStartPeriodic(2, 0, 0, Answered(0, 20, 7), true, Unsent(false, 9)),
                        ODisconnect(2, Answered(1, 20, 0), Answered(0, 20, 0))];
            var d := RunOps(JustOpened(2, CLEAN), ops);
            var o := Close(d, Answered(0, 20, 0), Answered(0, 20, 0), Answered(0, 20, 0));
            && AllGrant(JustOpened(2, CLEAN), ops) && !d.closed && !d.wireOpen && d.untracked
            && o.code == 0 && o.d.adapter.periodic == {7}
  {
    var connect := OConnect(Can.CAN, 0, 500000, 0, Answered(0, 20, 0), Answered(0, 20, 0), true, Unsent(false, 9));
    var start := OStartPeriodic(2, 0, 0, Answered(0, 20, 7), true, Unsent(false, 9));
    var disconnect := ODisconnect(2, Answered(1, 20, 0), Answered(0, 20, 0));
    hide RunOps, AllGrant, Do, Close;
    RunThree(JustOpened(2, CLEAN), connect, start, disconnect);
    ExampleConnect();
    ExampleShortStart();
    ExampleShutDisconnect();
    ExampleIdleClose();
  }

  const CLEAN := Adapter(false, {}, {})
  const CONNECTED := Device(false, false, true, false, 2, 0, Can.CAN, map[], map[], 3, true, Adapter(true, {}, {}), CLEAN)
  const SENDING := CONNECTED.(next := 4, periodics := map[3 := 7], adapter := Adapter(true, {}, {7}))
  const ABANDONED := SENDING.(channel := 0, periodics := map[], reopen := true)
  const SUSPECTED := CONNECTED.(next := 4, untracked := true, reopen := true, adapter := Adapter(true, {}, {7}))
  const SHUT := SUSPECTED.(channel := 0, wireOpen := false, adapter := Adapter(false, {}, {7}))

  lemma ExampleConnect()
    ensures Do(JustOpened(2, CLEAN), OConnect(Can.CAN, 0, 500000, 0, Answered(0, 20, 0), Answered(0, 20, 0), true,
                                              Unsent(false, 9))).d == CONNECTED
  {
    assert 500000 == Config.SUPPORTED_RATES[14];
  }

  lemma ExampleStart()
    ensures Do(CONNECTED, OStartPeriodic(2, 0, 0, Answered(0, 24, 7), true, Unsent(false, 9))).d == SENDING
  {
    assert |CONNECTED.periodics| == 0;
    assert {} + {7} == {7};
  }

  lemma ExampleShortStart()
    ensures Do(CONNECTED, OStartPeriodic(2, 0, 0, Answered(0, 20, 7), true, Unsent(false, 9))).d == SUSPECTED
  {
    assert |CONNECTED.periodics| == 0;
    assert {} + {7} == {7};
  }

  lemma ExampleDisconnect()
    ensures Do(SENDING, ODisconnect(2, Answered(1, 20, 0), Answered(1, 20, 0))).d == ABANDONED
  {
  }

  lemma ExampleShutDisconnect()
    ensures Do(SUSPECTED, ODisconnect(2, Answered(1, 20, 0), Answered(0, 20, 0))).d == SHUT
  {
  }

  lemma ExampleClose()
    ensures var o := Close(ABANDONED, Answered(0, 20, 0), Answered(0, 20, 0), Answered(0, 20, 0));
            o.code == 0 && !o.d.adapter.open && o.d.adapter.periodic == {7}
  {
  }

  lemma ExampleIdleClose()
    ensures var o := Close(SHUT, Answered(0, 20, 0), Answered(0, 20, 0), Answered(0, 20, 0));
            o.code == 0 && o.d.adapter.periodic == {7}
  {
  }

  lemma RunThree(d: Device, a: Op, b: Op, c: Op)
    ensures RunOps(d, [a, b, c]) == Do(Do(Do(d, a).d, b).d, c).d
    ensures AllGrant(d, [a, b, c])
        <==> Grants(d, a) && Grants(Do(d, a).d, b) && Grants(Do(Do(d, a).d, b).d, c)
  {
    hide Do, Grants;
    var d1 := Do(d, a).d;
    var d2 := Do(d1, b).d;
    assert [a, b, c][1..] == [b, c] && [b, c][1..] == [c] && [c][1..] == [];
    assert RunOps(d2, [c]) == RunOps(Do(d2, c).d, []);
    assert AllGrant(d2, [c]) <==> Grants(d2, c) && AllGrant(Do(d2, c).d, []);
  }
}
