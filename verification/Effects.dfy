// What each device operation achieves: exactly when it succeeds, in terms of the state before it, its arguments and
// the adapter's answers, and what host and adapter hold afterwards.
module Effects {
  import opened Bytes
  import Can
  import Config
  import S = Session
  import opened J2534

  // The command is carried out and answered with status zero.
  predicate Acknowledged(r: Reply) {
    r.Answered? && r.status == 0
  }

  predicate Connected(d: Device, channel: nat) {
    !d.closed && channel != 0 && d.channel == channel && !d.reopen
  }

  predicate HandlesLeft(d: Device, skip: nat) {
    d.next + skip <= 0xffff_ffff
  }

  // On a usable session an acknowledged command is applied and nothing else changes; any other fails.
  lemma CommandAcknowledged(d: Device, c: Cmd, r: Reply)
    ensures Code(d, r) == 0 <==> d.usable && Acknowledged(r)
    ensures d.usable && Acknowledged(r) ==> OnChannel(d, c, r) == d.(adapter := Apply(d.adapter, c, r.handle))
    ensures d.usable && Acknowledged(r) ==> Send(d, c, r) == d.(adapter := Apply(d.adapter, c, r.handle))
    ensures d.usable && Acknowledged(r) ==> Effective(d, r) == r
  {
    hide Apply;
  }

  lemma ConnectSucceeds(d: Device, protocol: u32, flags: u32, baud: u32, skip: nat,
                        opening: Reply, setUp: Reply, stored: bool, undone: Reply)
    ensures var o := Connect(d, protocol, flags, baud, skip, opening, setUp, stored, undone);
            && (o.code == 0 <==>
                  && !d.closed && !d.reopen && d.channel == 0
                  && (protocol == 5 || protocol == 6) && baud in Config.SUPPORTED_RATES
                  && (flags == 0 || (protocol == 5 && flags == 0x100))
                  && HandlesLeft(d, skip) && d.usable && Acknowledged(opening) && Acknowledged(setUp) && stored)
            && (o.code == 0 ==>
                  && o.id == d.next + skip
                  && o.d == d.(wireOpen := true, channel := o.id, flags := flags, protocol := o.d.protocol,
                               next := o.id + 1, adapter := Adapter(true, {}, d.adapter.periodic))
                  && o.d.protocol == protocol)
  {
    hide Open, ConnectRefusal;
    ConnectAllowed(d, protocol, flags, baud);
    if ConnectRefusal(d, protocol, flags, baud) == 0 && HandlesLeft(d, skip) {
      var id := d.next + skip;
      OpenSucceeds(Took(d, id).(protocol := protocol), id, flags, opening, setUp, stored, undone);
    }
  }

  lemma OpenSucceeds(d: Device, id: nat, flags: u32, opening: Reply, setUp: Reply, stored: bool, undone: Reply)
    ensures var o := Open(d, id, flags, opening, setUp, stored, undone);
            && (o.code == 0 <==> d.usable && Acknowledged(opening) && Acknowledged(setUp) && stored)
            && (o.code == 0 ==>
                  && o.id == id
                  && o.d == d.(wireOpen := true, channel := id, flags := flags,
                               adapter := Adapter(true, {}, d.adapter.periodic)))
  {
    hide OnChannel, Code, Effective, Undo;
    CommandAcknowledged(d, OpenChannel, opening);
    CommandAcknowledged(OnChannel(d, OpenChannel, opening).(wireOpen := true), SetUp, setUp);
  }

  lemma CommandStaysUsable(d: Device, c: Cmd, r: Reply)
    ensures !d.usable ==> !OnChannel(d, c, r).usable
  {
  }

  lemma ConnectAllowed(d: Device, protocol: u32, flags: u32, baud: u32)
    ensures ConnectRefusal(d, protocol, flags, baud) == 0 <==>
              && !d.closed && !d.reopen && d.channel == 0 && (protocol == 5 || protocol == 6)
              && baud in Config.SUPPORTED_RATES && (flags == 0 || (protocol == 5 && flags == 0x100))
  {
    assert 0 !in Config.SUPPORTED_RATES;
  }

  lemma DisconnectSucceeds(d: Device, channel: nat, cleared: Reply, shut: Reply)
    ensures var o := Disconnect(d, channel, cleared, shut);
            var holding := d.untracked || d.periodics != map[];
            && (o.code == 0 <==>
                  && !d.closed && channel != 0 && d.channel == channel
                  && d.usable && (holding ==> Acknowledged(cleared)) && Acknowledged(shut))
            && (o.code == 0 ==>
                  o.d == d.(filters := map[], periodics := map[], channel := 0, wireOpen := false, untracked := false,
                            adapter := Adapter(false, {}, if holding then {} else d.adapter.periodic)))
  {
    hide OnChannel, Code, Effective;
    var d1 := Retire(d);
    CommandAcknowledged(d1, Clear(TABLE_PERIODIC), cleared);
    var d2 := if HadPeriodic(d) then ClearPeriodicTable(d1, cleared) else d1;
    CommandAcknowledged(d2, CloseChannel, shut);
  }

  lemma CloseSucceeds(d: Device, cleared: Reply, shut: Reply, farewell: Reply)
    ensures var o := Close(d, cleared, shut, farewell);
            var holding := d.untracked || d.periodics != map[];
            && (o.code == 0 <==>
                  && !d.closed && d.usable && Acknowledged(farewell)
                  && (d.wireOpen ==> (holding ==> Acknowledged(cleared)) && Acknowledged(shut)))
            && (!d.closed ==> o.d.closed && o.d.channel == 0 && !o.d.usable)
            && (o.code == 0 && d.wireOpen ==> !o.d.wireOpen && !o.d.adapter.open && o.d.adapter.filters == {})
            && (o.code == 0 && d.wireOpen && holding ==> o.d.adapter.periodic == {})
  {
    hide OnChannel, Code, Effective, Send;
    var d1 := Retire(d.(closed := true));
    CommandAcknowledged(d1, Clear(TABLE_PERIODIC), cleared);
    ClearOutcome(d1, cleared);
    ClearStaysUsable(d1, cleared);
    var d2 := if d.wireOpen && HadPeriodic(d) then ClearPeriodicTable(d1, cleared) else d1;
    CommandAcknowledged(d2, CloseChannel, shut);
    CommandShape(d2, CloseChannel, shut);
    CommandStaysUsable(d2, CloseChannel, shut);
    CloseWireShape(d2, shut);
    var d3 := CloseWire(d2, shut);
    CommandAcknowledged(d3, CloseDevice, farewell);
    SendOutcome(d3, CloseDevice, farewell);
  }

  lemma ClearStaysUsable(d: Device, r: Reply)
    ensures !d.usable ==> !ClearPeriodicTable(d, r).usable
  {
    hide OnChannel;
    CommandStaysUsable(d, Clear(TABLE_PERIODIC), r);
  }

  // ---------------------------------------------------------------- filters

  // The table a filter of this kind lives in: 0 for pass, 1 for block, 2 for flow control.
  function HomeTable(kind: u32): nat {
    if kind == 3 then 2 else if kind == 2 then 1 else 0
  }

  // An ISO15765 channel takes flow-control filters only, with a flow message and at most 64 of them; any other
  // takes pass and block filters only, without one.
  predicate KindFits(d: Device, kind: u32, hasFlow: bool) {
    if d.protocol == 6 then kind == 3 && hasFlow && |InTable(d.filters, 2)| < 64
    else (kind == 1 || kind == 2) && !hasFlow
  }

  // Starting a filter succeeds exactly when it may and the adapter's acknowledgement carries a handle that can be
  // recorded; then exactly one new ID stands for exactly one new entry, in the table of its kind.
  lemma StartFilterSucceeds(d: Device, channel: nat, kind: u32, hasFlow: bool, encoded: nat, skip: nat,
                            added: Reply, kept: bool, dropped: Reply)
    ensures var o := StartFilter(d, channel, kind, hasFlow, encoded, skip, added, kept, dropped);
            && (o.code == 0 <==>
                  && Connected(d, channel) && KindFits(d, kind, hasFlow) && encoded == 0 && HandlesLeft(d, skip)
                  && d.usable && Acknowledged(added) && added.size >= 24 && kept)
            && (o.code == 0 ==>
                  var f := Filter(added.handle, HomeTable(kind));
                  && o.id == d.next + skip
                  && o.d == d.(next := o.id + 1, filters := d.filters[o.id := f],
                               adapter := d.adapter.(filters := d.adapter.filters + {f})))
  {
    hide OnChannel, Code, Effective;
    var d1 := Took(d, d.next + skip);
    CommandAcknowledged(d1, Add(TableFor(d, kind)), added);
  }

  // Stopping one takes exactly that ID and exactly its entry away.
  lemma StopFilterSucceeds(d: Device, channel: nat, id: nat, r: Reply)
    requires Inv(d)
    ensures var o := StopFilter(d, channel, id, r);
            && (o.code == 0 <==> Connected(d, channel) && id in d.filters && d.usable && Acknowledged(r))
            && (o.code == 0 ==>
                  o.d == d.(filters := d.filters - {id},
                            adapter := d.adapter.(filters := d.adapter.filters - {d.filters[id]})))
  {
    hide OnChannel, Code, Effective, Inv;
    InvBooked(d);
    if id in d.filters {
      CommandAcknowledged(d, Drop(d.filters[id].table, d.filters[id].handle), r);
      assert Filter(d.filters[id].handle, d.filters[id].table) == d.filters[id];
    }
  }

  // CLEAR_MSG_FILTERS succeeds exactly when every table with a filter in it is cleared with the adapter's
  // acknowledgement; then no filter is left, in any table, on either side.
  lemma ClearFiltersSucceeds(d: Device, channel: nat, replies: seq<Reply>)
    requires Inv(d) && |replies| == 3
    ensures var o := ClearFilters(d, channel, replies);
            && (o.code == 0 <==>
                  && Connected(d, channel)
                  && forall id :: id in d.filters ==> d.usable && Acknowledged(replies[d.filters[id].table]))
            && (o.code == 0 ==> o.d == d.(filters := map[], adapter := d.adapter.(filters := {})))
  {
    hide ClearFrom, Inv;
    if Connected(d, channel) {
      InvBooked(d);
      ClearFromSucceeds(d, TABLE_PASS, replies);
    }
  }

  lemma {:induction false} ClearFromSucceeds(d: Device, table: nat, replies: seq<Reply>)
    requires Inv(d) && !d.closed && d.channel != 0 && !d.reopen && |replies| == 3 && table <= 3
    requires forall id :: id in d.filters ==> table <= d.filters[id].table < 3
    ensures var o := ClearFrom(d, table, replies);
            && (o.code == 0 <==>
                  forall id :: id in d.filters ==> d.usable && Acknowledged(replies[d.filters[id].table]))
            && (o.code == 0 ==> o.d == d.(filters := map[], adapter := d.adapter.(filters := {})))
    decreases 3 - table
  {
    hide OnChannel, Code, Effective, Inv;
    if table == 3 {
      assert d.filters == map[];
      NoneHeld(d);
    } else if InTable(d.filters, table) == {} {
      NoneInTable(d.filters, table);
      ClearFromSucceeds(d, table + 1, replies);
    } else {
      var some :| some in InTable(d.filters, table);
      CommandAcknowledged(d, Clear(table), replies[table]);
      if d.usable && Acknowledged(replies[table]) {
        var e := OnChannel(d, Clear(table), replies[table]);
        var v := e.(filters := e.filters - InTable(e.filters, table));
        ClearedInv(d, table, replies[table]);
        ClearFromSucceeds(v, table + 1, replies);
        RestAcknowledged(d, v, table, replies);
      }
    }
  }

  lemma NoneHeld(d: Device)
    requires Inv(d) && !d.closed && d.channel != 0 && !d.reopen && d.filters == map[]
    ensures d.adapter.filters == {}
  {
    NothingTracked();
  }

  lemma NoneInTable(filters: map<nat, Filter>, table: nat)
    requires InTable(filters, table) == {}
    ensures forall id :: id in filters ==> filters[id].table != table
  {
    forall id | id in filters ensures filters[id].table != table {
      assert id !in InTable(filters, table);
    }
  }

  lemma ClearedInv(d: Device, table: nat, r: Reply)
    requires Inv(d) && !d.closed && d.channel != 0 && !d.reopen && table <= 2
    requires d.usable && Acknowledged(r)
    ensures var e := OnChannel(d, Clear(table), r);
            Inv(e.(filters := e.filters - InTable(e.filters, table)))
  {
    hide OnChannel, Code, Effective, Tracked, OneEntryEach, PeriodicHandles;
    CommandAcknowledged(d, Clear(table), r);
    TrackedClear(d.filters, table);
  }

  lemma RestAcknowledged(d: Device, v: Device, table: nat, replies: seq<Reply>)
    requires |replies| == 3 && table < 3 && v.filters == d.filters - InTable(d.filters, table) && v.usable == d.usable
    requires forall id :: id in d.filters ==> d.filters[id].table < 3
    requires d.usable && Acknowledged(replies[table])
    ensures (forall id :: id in v.filters ==> v.usable && Acknowledged(replies[v.filters[id].table]))
        <==> (forall id :: id in d.filters ==> d.usable && Acknowledged(replies[d.filters[id].table]))
  {
    if forall id :: id in v.filters ==> v.usable && Acknowledged(replies[v.filters[id].table]) {
      forall id | id in d.filters ensures Acknowledged(replies[d.filters[id].table]) {
        if d.filters[id].table != table { assert id in v.filters; }
      }
    }
  }

  // ---------------------------------------------------------------- periodic messages

  lemma StartPeriodicSucceeds(d: Device, channel: nat, encoded: nat, skip: nat,
                              added: Reply, kept: bool, dropped: Reply)
    ensures var o := StartPeriodic(d, channel, encoded, skip, added, kept, dropped);
            && (o.code == 0 <==>
                  && Connected(d, channel) && d.protocol == 5 && encoded == 0 && |d.periodics| < 10
                  && HandlesLeft(d, skip) && d.usable && Acknowledged(added) && added.size >= 24 && kept)
            && (o.code == 0 ==>
                  && o.id == d.next + skip
                  && o.d == d.(next := o.id + 1, periodics := d.periodics[o.id := added.handle],
                               adapter := d.adapter.(periodic := d.adapter.periodic + {added.handle})))
  {
    hide OnChannel, Code, Effective;
    var d1 := Took(d, d.next + skip).(untracked := true);
    CommandAcknowledged(d1, Add(TABLE_PERIODIC), added);
    CodeIs(d1, added);
  }

  lemma CodeIs(d: Device, r: Reply)
    ensures Code(d, r) == Accepted(Effective(d, r))
  {
  }

  lemma StopPeriodicSucceeds(d: Device, channel: nat, id: nat, r: Reply)
    ensures var o := StopPeriodic(d, channel, id, r);
            && (o.code == 0 <==> Connected(d, channel) && id in d.periodics && d.usable && Acknowledged(r))
            && (o.code == 0 ==>
                  o.d == d.(periodics := d.periodics - {id},
                            adapter := d.adapter.(periodic := d.adapter.periodic - {d.periodics[id]})))
  {
    hide OnChannel, Code, Effective;
    if id in d.periodics { CommandAcknowledged(d, Drop(TABLE_PERIODIC, d.periodics[id]), r); }
  }

  // CLEAR_PERIODIC_MSGS: afterwards nothing is held or suspected; the adapter is asked only if something was, and
  // then its table is empty.
  lemma ClearPeriodicsSucceeds(d: Device, channel: nat, r: Reply)
    ensures var o := ClearPeriodics(d, channel, r);
            var holding := d.untracked || d.periodics != map[];
            && (o.code == 0 <==> Connected(d, channel) && (holding ==> d.usable && Acknowledged(r)))
            && (o.code == 0 ==>
                  o.d == d.(periodics := map[], untracked := false,
                            adapter := if holding then d.adapter.(periodic := {}) else d.adapter))
  {
    hide OnChannel, Code, Effective;
    CommandAcknowledged(d, Clear(TABLE_PERIODIC), r);
  }

  // ---------------------------------------------------------------- refusals

  function ChannelOf(op: Op): Option<nat> {
    match op
    case ODisconnect(ch, _, _) => Some(ch)
    case OStartFilter(ch, _, _, _, _, _, _, _) => Some(ch)
    case OStopFilter(ch, _, _) => Some(ch)
    case OClearFilters(ch, _, _, _) => Some(ch)
    case OStartPeriodic(ch, _, _, _, _, _) => Some(ch)
    case OStopPeriodic(ch, _, _) => Some(ch)
    case OClearPeriodics(ch, _) => Some(ch)
    case OPlain(ch, _) => Some(ch)
    case _ => None
  }

  // A channel operation under a number that is not the device's channel changes nothing and says so; and on an
  // uncertain channel every operation but Disconnect does.
  lemma RefusedUnchanged(d: Device, op: Op)
    requires ChannelOf(op).Some?
    ensures d.closed || ChannelOf(op).value == 0 || d.channel != ChannelOf(op).value ==> Do(d, op) == Done(d, 2, 0)
    ensures !d.closed && ChannelOf(op).value != 0 && d.channel == ChannelOf(op).value && d.reopen && !op.ODisconnect?
        ==> Do(d, op) == Done(d, 8, 0)
  {
    hide OnChannel, Code, Effective;
  }

  // Stopping what is not there, and connecting a connected device, change nothing either.
  lemma UnknownUnchanged(d: Device, channel: nat, id: nat, r: Reply)
    requires Connected(d, channel)
    ensures id !in d.filters ==> StopFilter(d, channel, id, r) == Done(d, 22, 0)
    ensures id !in d.periodics ==> StopPeriodic(d, channel, id, r) == Done(d, 13, 0)
  {
    hide OnChannel, Code, Effective;
  }

  lemma SecondConnectRefused(d: Device, op: Op)
    requires op.OConnect? && !d.closed && !d.reopen && d.channel != 0 && op.baud != 0
    ensures op.protocol == 5 || op.protocol == 6 ==> Do(d, op) == Done(d, 20, 0)
  {
    hide Open;
  }
}
