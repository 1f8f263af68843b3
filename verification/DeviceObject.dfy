// src/j2534.cpp: the device as the object its operations update step by step under the lifecycle lock. What the
// adapter and the session answer is given by the reply parameters; the ghost field is the adapter itself.
module DeviceObject {
  import opened Bytes
  import Can
  import Config
  import S = Session
  import J = J2534

  class Device {
    var closed: bool
    var reopenRequired: bool
    var wireChannelOpen: bool
    var periodicUntracked: bool
    var channel: nat
    var channelFlags: u32
    var protocol: u16
    var filters: map<nat, J.Filter>
    var periodics: map<nat, u32>
    var nextHandle: nat
    var usable: bool
    ghost var adapter: J.Adapter
    ghost const found: J.Adapter

    ghost function State(): J.Device
      reads this
    {
      J.Device(closed, reopenRequired, wireChannelOpen, periodicUntracked, channel, channelFlags, protocol,
               filters, periodics, nextHandle, usable, adapter, found)
    }

    constructor (next: nat, ghost asFound: J.Adapter)
      ensures State() == J.JustOpened(next, asFound)
    {
      closed, reopenRequired, wireChannelOpen, periodicUntracked := false, false, false, false;
      channel, channelFlags, protocol := 0, 0, Can.CAN;
      filters, periodics, nextHandle, usable := map[], map[], next, true;
      adapter, found := asFound, asFound;
    }

    // Session::command: what comes back, and what it did to the session and the adapter.
    method SessionCommand(c: J.Cmd, r: J.Reply) returns (x: J.Reply)
      modifies this
      ensures State() == J.Send(old(State()), c, r) && x == J.Effective(old(State()), r)
    {
      x := if usable then r else if r.Unsent? then r else J.Unsent(false, S.ERR_DEVICE_NOT_CONNECTED);
      match x
      case Answered(status, _, h) => if status == 0 { adapter := J.Apply(adapter, c, h); }
      case Unsent(dies, _) => usable := usable && !dies;
      case Lost(applied, h, _) =>
        usable := false;
        if applied { adapter := J.Apply(adapter, c, h); }
    }

    method ChannelCommand(c: J.Cmd, r: J.Reply) returns (x: J.Reply)
      modifies this
      ensures State() == J.OnChannel(old(State()), c, r) && x == J.Effective(old(State()), r)
    {
      x := SessionCommand(c, r);
      if !x.Answered? && !usable { reopenRequired := true; }
    }

    method AllocateHandle(skip: nat) returns (id: Option<nat>)
      modifies `nextHandle
      ensures id == J.Allocate(old(State()), skip)
      ensures State() == if id.Some? then J.Took(old(State()), id.value) else old(State())
    {
      if nextHandle + skip > J.MAX_HANDLE { return None; }
      id := Some(nextHandle + skip);
      nextHandle := nextHandle + skip + 1;
    }

    // What the lookup checks once it holds the lifecycle lock, and the session check after it.
    method Lock(asked: nat) returns (code: int)
      ensures code == J.Locked(State(), asked)
    {
      if closed || asked == 0 || channel != asked { return S.ERR_INVALID_CHANNEL_ID; }
      if reopenRequired { return S.ERR_DEVICE_NOT_CONNECTED; }
      return 0;
    }

    method RefuseConnect(asked: u32, flags: u32, baud: u32) returns (code: int)
      ensures code == J.ConnectRefusal(State(), asked, flags, baud)
    {
      var can := asked == Can.CAN || asked == Can.ISO15765;
      if closed { return J.ERR_INVALID_DEVICE_ID; }
      if asked < 1 || asked > Can.ISO15765 { return J.ERR_INVALID_PROTOCOL_ID; }
      if baud == 0 { return J.ERR_INVALID_BAUDRATE; }
      if reopenRequired { return S.ERR_DEVICE_NOT_CONNECTED; }
      if can && channel != 0 { return J.ERR_CHANNEL_IN_USE; }
      if !can { return Config.ERR_NOT_SUPPORTED; }
      if !Config.BaudSupported(baud) { return J.ERR_INVALID_BAUDRATE; }
      if flags != 0 && !(asked == Can.CAN && flags == J.CAN_29BIT_ID) { return J.ERR_INVALID_FLAGS; }
      return 0;
    }

    method RefuseFilter(kind: u32, hasFlow: bool, encoded: nat) returns (code: int)
      ensures code == J.FilterRefusal(State(), kind, hasFlow, encoded)
    {
      if protocol == Can.ISO15765 {
        if kind != J.FLOW_CONTROL_FILTER { return Config.ERR_NOT_SUPPORTED; }
        if !hasFlow { return J.ERR_NULL_PARAMETER; }
        if |J.InTable(filters, J.TABLE_FLOW_CONTROL)| >= J.MAX_FLOW_FILTERS { return S.ERR_EXCEEDED_LIMIT; }
        return encoded;
      }
      if kind != J.PASS_FILTER && kind != J.BLOCK_FILTER { return Config.ERR_NOT_SUPPORTED; }
      if hasFlow { return J.ERR_INVALID_MSG; }
      return encoded;
    }

    method RetireChannel() returns (hadPeriodic: bool)
      modifies this
      ensures State() == J.Retire(old(State())) && hadPeriodic == J.HadPeriodic(old(State()))
    {
      hadPeriodic := periodicUntracked || periodics != map[];
      filters, periodics := map[], map[];
      channel := 0;
    }

    method ClearPeriodicTable(r: J.Reply) returns (code: int)
      modifies this
      ensures State() == J.ClearPeriodicTable(old(State()), r) && code == J.Code(old(State()), r)
    {
      hide J.OnChannel, J.Effective;
      var x := ChannelCommand(J.Clear(J.TABLE_PERIODIC), r);
      code := J.Accepted(x);
      if code == 0 { periodics, periodicUntracked := map[], false; }
    }

    method Connect(asked: u32, flags: u32, baud: u32, skip: nat,
                   opening: J.Reply, setUp: J.Reply, stored: bool, undone: J.Reply) returns (code: int, id: nat)
      modifies this
      ensures J.Done(State(), code, id) == J.Connect(old(State()), asked, flags, baud, skip, opening, setUp, stored, undone)
    {
      hide J.ConnectRefusal, J.Open;
      code := RefuseConnect(asked, flags, baud);
      id := 0;
      if code != 0 { return; }
      J.RefusalCovers(State(), asked, flags, baud);
      var ticket := AllocateHandle(skip);
      if ticket == None { return S.ERR_EXCEEDED_LIMIT, 0; }
      protocol := asked;
      assert State() == J.Took(old(State()), ticket.value).(protocol := asked);
      code, id := Open(ticket.value, flags, opening, setUp, stored, undone);
    }

    method Open(ticket: nat, flags: u32, opening: J.Reply, setUp: J.Reply, stored: bool, undone: J.Reply)
      returns (code: int, id: nat)
      modifies this
      ensures J.Done(State(), code, id) == J.Open(old(State()), ticket, flags, opening, setUp, stored, undone)
    {
      hide J.OnChannel, J.Effective, J.Publish;
      var x := ChannelCommand(J.OpenChannel, opening);
      code, id := J.Accepted(x), 0;
      if code != 0 { return; }
      wireChannelOpen := true;
      code, id := Publish(ticket, flags, setUp, stored, undone);
    }

    // From the open wire channel to the registered one; if that fails, the wire channel is closed again.
    method Publish(ticket: nat, flags: u32, setUp: J.Reply, stored: bool, undone: J.Reply)
      returns (code: int, id: nat)
      modifies this
      ensures J.Done(State(), code, id) == J.Publish(old(State()), ticket, flags, setUp, stored, undone)
    {
      hide J.OnChannel, J.Effective, J.Undo;
      var x := ChannelCommand(J.SetUp, setUp);
      code, id := J.Accepted(x), 0;
      if code == 0 && stored {
        channel, channelFlags, id := ticket, flags, ticket;
        return;
      }
      if code == 0 { code := S.ERR_FAILED; }
      Undo(undone);
    }

    method Undo(undone: J.Reply)
      modifies this
      ensures State() == J.Undo(old(State()), undone)
    {
      hide J.OnChannel, J.Effective;
      if !reopenRequired {
        var x := ChannelCommand(J.CloseChannel, undone);
        if J.Accepted(x) == 0 { wireChannelOpen := false; } else { reopenRequired := true; }
      }
    }

    method Disconnect(asked: nat, cleared: J.Reply, shut: J.Reply) returns (code: int)
      modifies this
      ensures J.Done(State(), code, 0) == J.Disconnect(old(State()), asked, cleared, shut)
    {
      hide J.Code, J.ShutChannel, J.ClearPeriodicTable;
      if closed || asked == 0 || channel != asked { return S.ERR_INVALID_CHANNEL_ID; }
      var periodic := RetireChannel();
      var bad := 0;
      if periodic { bad := ClearPeriodicTable(cleared); }
      code := ShutChannel(bad, shut);
    }

    method ShutChannel(bad: int, shut: J.Reply) returns (code: int)
      modifies this
      ensures J.Done(State(), code, 0) == J.ShutChannel(old(State()), bad, shut)
    {
      hide J.OnChannel, J.Effective;
      var x := ChannelCommand(J.CloseChannel, shut);
      code := J.Accepted(x);
      if code != 0 {
        reopenRequired := true;
        return;
      }
      wireChannelOpen := false;
      if bad != 0 {
        reopenRequired := true;
        code := bad;
      }
    }

    method Close(cleared: J.Reply, shut: J.Reply, farewell: J.Reply) returns (code: int)
      modifies this
      ensures J.Done(State(), code, 0) == J.Close(old(State()), cleared, shut, farewell)
    {
      hide J.Leave, J.Code, J.ClearPeriodicTable;
      if closed { return J.ERR_INVALID_DEVICE_ID; }
      closed := true;
      var periodic := RetireChannel();
      var bad := 0;
      if wireChannelOpen && periodic { bad := ClearPeriodicTable(cleared); }
      code := Leave(bad, shut, farewell);
    }

    method Leave(bad: int, shut: J.Reply, farewell: J.Reply) returns (code: int)
      modifies this
      ensures J.Done(State(), code, 0) == J.Leave(old(State()), bad, shut, farewell)
    {
      hide J.CloseWire, J.Effective, J.Accepted, J.Send;
      code := bad;
      var worse := CloseWire(shut);
      if worse != 0 { code := worse; }
      var x := SessionCommand(J.CloseDevice, farewell);
      if code == 0 { code := J.Accepted(x); }
      usable := false;
    }

    method CloseWire(shut: J.Reply) returns (code: int)
      modifies this
      ensures State() == J.CloseWire(old(State()), shut)
      ensures code == if old(wireChannelOpen) then J.Code(old(State()), shut) else 0
    {
      hide J.OnChannel, J.Effective;
      code := 0;
      if wireChannelOpen {
        var x := ChannelCommand(J.CloseChannel, shut);
        code := J.Accepted(x);
        if code == 0 { wireChannelOpen := false; }
      }
    }

    method StartFilter(asked: nat, kind: u32, hasFlow: bool, encoded: nat, skip: nat,
                       added: J.Reply, kept: bool, dropped: J.Reply) returns (code: int, id: nat)
      modifies this
      ensures J.Done(State(), code, id)
           == J.StartFilter(old(State()), asked, kind, hasFlow, encoded, skip, added, kept, dropped)
    {
      hide J.AddFilter, J.FilterRefusal;
      id := 0;
      code := Lock(asked);
      if code == 0 { code := RefuseFilter(kind, hasFlow, encoded); }
      if code != 0 { return; }
      var table := if protocol == Can.ISO15765 then J.TABLE_FLOW_CONTROL
                   else if kind == J.BLOCK_FILTER then J.TABLE_BLOCK
                   else J.TABLE_PASS;
      var ticket := AllocateHandle(skip);
      if ticket == None { return S.ERR_EXCEEDED_LIMIT, 0; }
      code, id := AddFilter(ticket.value, table, added, kept, dropped);
    }

    method AddFilter(ticket: nat, table: nat, added: J.Reply, kept: bool, dropped: J.Reply)
      returns (code: int, id: nat)
      modifies this
      ensures J.Done(State(), code, id) == J.AddFilter(old(State()), ticket, table, added, kept, dropped)
    {
      hide J.OnChannel, J.Effective, J.RecordFilter;
      var x := ChannelCommand(J.Add(table), added);
      code, id := J.Accepted(x), 0;
      if code != 0 { return; }
      if x.size < 24 {
        reopenRequired := true;
        return S.ERR_FAILED, 0;
      }
      code, id := RecordFilter(ticket, J.Filter(x.handle, table), kept, dropped);
    }

    // An entry the host cannot record is taken out of the adapter again.
    method RecordFilter(ticket: nat, f: J.Filter, kept: bool, dropped: J.Reply) returns (code: int, id: nat)
      modifies this
      ensures J.Done(State(), code, id) == J.RecordFilter(old(State()), ticket, f, kept, dropped)
    {
      hide J.OnChannel, J.Effective;
      if kept {
        filters := filters[ticket := f];
        return 0, ticket;
      }
      var x := ChannelCommand(J.Drop(f.table, f.handle), dropped);
      if J.Accepted(x) != 0 { reopenRequired := true; }
      return S.ERR_FAILED, 0;
    }

    method StopFilter(asked: nat, id: nat, r: J.Reply) returns (code: int)
      modifies this
      ensures J.Done(State(), code, 0) == J.StopFilter(old(State()), asked, id, r)
    {
      hide J.OnChannel, J.Effective, J.Send;
      code := Lock(asked);
      if code != 0 { return; }
      if id !in filters { return J.ERR_INVALID_FILTER_ID; }
      var x := ChannelCommand(J.Drop(filters[id].table, filters[id].handle), r);
      code := J.Accepted(x);
      if code == 0 { filters := filters - {id}; }
    }

    // The tables in turn, stopping at the first clear that fails.
    method ClearFilters(asked: nat, replies: seq<J.Reply>) returns (code: int)
      requires |replies| == 3
      modifies this
      ensures J.Done(State(), code, 0) == J.ClearFilters(old(State()), asked, replies)
    {
      hide J.OnChannel, J.Effective, J.Send, J.InTable;
      code := Lock(asked);
      if code != 0 { return; }
      var table := J.TABLE_PASS;
      while table < 3
        invariant table <= 3
        invariant J.ClearFrom(State(), table, replies) == J.ClearFrom(old(State()), J.TABLE_PASS, replies)
      {
        if J.InTable(filters, table) != {} {
          var x := ChannelCommand(J.Clear(table), replies[table]);
          code := J.Accepted(x);
          if code != 0 { return; }
          filters := filters - J.InTable(filters, table);
        }
        table := table + 1;
      }
      code := 0;
    }

    method StartPeriodic(asked: nat, encoded: nat, skip: nat,
                         added: J.Reply, kept: bool, dropped: J.Reply) returns (code: int, id: nat)
      modifies this
      ensures J.Done(State(), code, id) == J.StartPeriodic(old(State()), asked, encoded, skip, added, kept, dropped)
    {
      hide J.OnChannel, J.Effective, J.Send, J.AddPeriodic;
      id := 0;
      code := Lock(asked);
      if code != 0 { return; }
      if protocol != Can.CAN { return Config.ERR_NOT_SUPPORTED, 0; }
      if encoded != 0 { return encoded, 0; }
      if |periodics| >= J.MAX_PERIODICS { return S.ERR_EXCEEDED_LIMIT, 0; }
      var ticket := AllocateHandle(skip);
      if ticket == None { return S.ERR_EXCEEDED_LIMIT, 0; }
      code, id := AddPeriodic(ticket.value, added, kept, dropped);
    }

    method AddPeriodic(ticket: nat, added: J.Reply, kept: bool, dropped: J.Reply) returns (code: int, id: nat)
      modifies this
      ensures J.Done(State(), code, id) == J.AddPeriodic(old(State()), ticket, added, kept, dropped)
    {
      hide J.OnChannel, J.Effective, J.SettlePeriodic;
      var wasUntracked := periodicUntracked;
      periodicUntracked := true;
      var x := ChannelCommand(J.Add(J.TABLE_PERIODIC), added);
      code, id := SettlePeriodic(ticket, x, wasUntracked, kept, dropped);
    }

    method SettlePeriodic(ticket: nat, x: J.Reply, was: bool, kept: bool, dropped: J.Reply)
      returns (code: int, id: nat)
      modifies this
      ensures J.Done(State(), code, id) == J.SettlePeriodic(old(State()), ticket, x, was, kept, dropped)
    {
      hide J.RecordPeriodic;
      if !x.Answered? { return J.Accepted(x), 0; }
      if J.Accepted(x) != 0 {
        periodicUntracked := was;
        return J.Accepted(x), 0;
      }
      if x.size < 24 {
        reopenRequired := true;
        return S.ERR_FAILED, 0;
      }
      code, id := RecordPeriodic(ticket, x.handle, was, kept, dropped);
    }

    method RecordPeriodic(ticket: nat, h: u32, was: bool, kept: bool, dropped: J.Reply) returns (code: int, id: nat)
      modifies this
      ensures J.Done(State(), code, id) == J.RecordPeriodic(old(State()), ticket, h, was, kept, dropped)
    {
      hide J.OnChannel, J.Effective;
      if kept {
        periodics, periodicUntracked := periodics[ticket := h], was;
        return 0, ticket;
      }
      var x := ChannelCommand(J.Drop(J.TABLE_PERIODIC, h), dropped);
      if J.Accepted(x) == 0 { periodicUntracked := was; } else { reopenRequired := true; }
      return S.ERR_FAILED, 0;
    }

    method StopPeriodic(asked: nat, id: nat, r: J.Reply) returns (code: int)
      modifies this
      ensures J.Done(State(), code, 0) == J.StopPeriodic(old(State()), asked, id, r)
    {
      hide J.OnChannel, J.Effective, J.Send;
      code := Lock(asked);
      if code != 0 { return; }
      if id !in periodics { return J.ERR_INVALID_MSG_ID; }
      var x := ChannelCommand(J.Drop(J.TABLE_PERIODIC, periodics[id]), r);
      code := J.Accepted(x);
      if code == 0 { periodics := periodics - {id}; }
    }

    method ClearPeriodics(asked: nat, r: J.Reply) returns (code: int)
      modifies this
      ensures J.Done(State(), code, 0) == J.ClearPeriodics(old(State()), asked, r)
    {
      hide J.OnChannel, J.Effective, J.Send, J.ClearPeriodicTable;
      code := Lock(asked);
      if code != 0 { return; }
      if !periodicUntracked && periodics == map[] { return 0; }
      code := ClearPeriodicTable(r);
    }
  }
}
