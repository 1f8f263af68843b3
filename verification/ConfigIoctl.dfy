// src/j2534.cpp, SET_CONFIG: the whole list is checked before anything is written.
module ConfigIoctl {
  import opened Bytes
  import Can
  import Config
  import S = Session
  import J = J2534
  import Receivers = CanReceivers
  import DeviceObject

  const MAX_PARAMETERS := 50

  datatype Item = Item(parameter: u32, value: u32)

  // sent: the selector and value of every write handed to the session.
  datatype Progress = Progress(d: J.Device, loopback: bool, sent: seq<(u32, u32)>, code: int)

  // The first entry's error that is not zero, or zero.
  function Check(protocol: u16, items: seq<Item>): int {
    if items == [] then 0
    else
      var code := Config.ValidateSet(protocol, items[0].parameter, items[0].value);
      if code != 0 then code else Check(protocol, items[1..])
  }

  function ApplyItem(p: Progress, item: Item, r: J.Reply): Progress {
    match Config.RouteOf(p.d.protocol, item.parameter)
    case Failed(code) => p.(code := code)
    case Found(route) =>
      if route.host then p.(loopback := item.value != 0)
      else Progress(J.OnChannel(p.d, J.Plain, r), p.loopback, p.sent + [(route.selector, item.value)], J.Code(p.d, r))
  }

  function ApplyAll(p: Progress, items: seq<Item>, replies: seq<J.Reply>): Progress
    requires |items| == |replies|
    decreases |items|
  {
    if items == [] || p.code != 0 then p
    else ApplyAll(ApplyItem(p, items[0], replies[0]), items[1..], replies[1..])
  }

  function SetConfig(d: J.Device, loopback: bool, channel: nat, items: seq<Item>, replies: seq<J.Reply>): Progress
    requires |items| == |replies|
  {
    if J.Locked(d, channel) != 0 then Progress(d, loopback, [], J.Locked(d, channel))
    else if |items| == 0 || |items| > MAX_PARAMETERS then Progress(d, loopback, [], S.ERR_FAILED)
    else if Check(d.protocol, items) != 0 then Progress(d, loopback, [], Check(d.protocol, items))
    else ApplyAll(Progress(d, loopback, [], 0), items, replies)
  }

  // ---------------------------------------------------------------- what it promises

  predicate Settable(protocol: u16, item: Item) {
    Config.ValidateSet(protocol, item.parameter, item.value) == 0
  }

  lemma {:induction false} CheckIsAll(protocol: u16, items: seq<Item>)
    ensures Check(protocol, items) == 0 <==> forall i :: i in items ==> Settable(protocol, i)
    ensures Check(protocol, items) != 0 ==>
              exists k :: 0 <= k < |items|
                && (forall j :: 0 <= j < k ==> Settable(protocol, items[j]))
                && Config.ValidateSet(protocol, items[k].parameter, items[k].value) == Check(protocol, items)
    decreases |items|
  {
    hide Config.ValidateSet;
    if items != [] {
      CheckIsAll(protocol, items[1..]);
      if !Settable(protocol, items[0]) {
        assert items[0] in items;
      } else if Check(protocol, items[1..]) != 0 {
        var k :| 0 <= k < |items[1..]|
          && (forall j :: 0 <= j < k ==> Settable(protocol, items[1..][j]))
          && Config.ValidateSet(protocol, items[1..][k].parameter, items[1..][k].value) == Check(protocol, items[1..]);
        assert items[k + 1] == items[1..][k];
        forall j | 0 <= j < k + 1 ensures Settable(protocol, items[j]) {
          if j > 0 { assert items[j] == items[1..][j - 1]; }
        }
      }
    }
  }

  // The writes a list asks for, in order, and the loopback value it leaves.
  function Writes(protocol: u16, items: seq<Item>): seq<(u32, u32)> {
    if items == [] then []
    else
      var l := Config.RouteOf(protocol, items[0].parameter);
      (if l.Found? && !l.route.host then [(l.route.selector, items[0].value)] else [])
      + Writes(protocol, items[1..])
  }

  function LoopbackAfter(loopback: bool, items: seq<Item>): bool
    decreases |items|
  {
    if items == [] then loopback
    else LoopbackAfter(if items[0].parameter == Config.LOOPBACK then items[0].value != 0 else loopback, items[1..])
  }

  // `done` of the items have been dealt with.
  ghost predicate Reached(before: Progress, after: Progress, items: seq<Item>, done: nat) {
    && done <= |items|
    && after.sent == before.sent + Writes(before.d.protocol, items[..done])
    && after.loopback == LoopbackAfter(before.loopback, items[..done])
  }

  // With a list that passes the check, the apply loop goes through the list in order and stops only at a write
  // the adapter did not accept, never at a routing failure.
  lemma {:induction false} ApplyGoesThrough(p: Progress, items: seq<Item>, replies: seq<J.Reply>) returns (done: nat)
    requires |items| == |replies| && p.code == 0 && forall i :: i in items ==> Settable(p.d.protocol, i)
    ensures var q := ApplyAll(p, items, replies);
            && Reached(p, q, items, done) && q.d.protocol == p.d.protocol
            && (q.code == 0 ==> done == |items|)
            && (q.code != 0 ==> done > 0 && items[done - 1].parameter != Config.LOOPBACK
                                && exists d: J.Device :: d.protocol == p.d.protocol && q.code == J.Code(d, replies[done - 1]))
    decreases |items|
  {
    hide J.OnChannel, J.Code, Config.RouteOf, Config.ValidateSet;
    if items == [] {
      done := 0;
      assert items[..0] == [] && p.sent + [] == p.sent;
      assert Reached(p, ApplyAll(p, items, replies), items, done);
    } else {
      var item := items[0];
      assert item in items;
      SettableRoutes(p.d.protocol, item);
      var q := ApplyItem(p, item, replies[0]);
      J.CommandShape(p.d, J.Plain, replies[0]);
      assert items[..1] == [item] && [item][1..] == [];
      assert Writes(p.d.protocol, [item]) == Writes(p.d.protocol, [item]) + [];
      assert q.sent == p.sent + Writes(p.d.protocol, [item]);
      assert q.loopback == LoopbackAfter(p.loopback, [item]);
      assert Reached(p, q, items, 1);
      if q.code != 0 {
        done := 1;
        assert ApplyAll(q, items[1..], replies[1..]) == q;
      } else {
        forall i | i in items[1..] ensures Settable(p.d.protocol, i) { assert i in items; }
        var more := ApplyGoesThrough(q, items[1..], replies[1..]);
        done := more + 1;
        ReachedMore(p, q, ApplyAll(q, items[1..], replies[1..]), items, more);
      }
    }
  }

  lemma ReachedMore(p: Progress, q: Progress, r: Progress, items: seq<Item>, more: nat)
    requires items != [] && q.d.protocol == p.d.protocol
    requires Reached(p, q, items, 1) && Reached(q, r, items[1..], more)
    ensures Reached(p, r, items, more + 1)
  {
    hide Config.RouteOf;
    var all, rest, head := items[..more + 1], items[1..][..more], items[..1];
    assert all[0] == items[0] && all[1..] == rest && head[0] == items[0] && head[1..] == [];
    var own := Writes(p.d.protocol, head);
    var one := Writes(p.d.protocol, [items[0]]);
    assert head == [items[0]] && own == one;
    FirstOf(p.d.protocol, p.loopback, all);
    assert (p.sent + own) + Writes(p.d.protocol, rest) == p.sent + (own + Writes(p.d.protocol, rest));
  }

  lemma FirstOf(protocol: u16, loopback: bool, items: seq<Item>)
    requires items != []
    ensures Writes(protocol, items) == Writes(protocol, [items[0]]) + Writes(protocol, items[1..])
    ensures LoopbackAfter(loopback, items) == LoopbackAfter(LoopbackAfter(loopback, [items[0]]), items[1..])
  {
    hide Config.RouteOf;
    assert [items[0]][1..] == [];
    var l := Config.RouteOf(protocol, items[0].parameter);
    var own := if l.Found? && !l.route.host then [(l.route.selector, items[0].value)] else [];
    assert own + [] == own;
  }

  lemma SettableRoutes(protocol: u16, item: Item)
    requires Settable(protocol, item)
    ensures Config.RouteOf(protocol, item.parameter).Found?
    ensures Config.RouteOf(protocol, item.parameter).route.host <==> item.parameter == Config.LOOPBACK
  {
    hide Config.Find;
    Config.OnlyLoopbackIsHosts(protocol, item.parameter);
  }

  // All or nothing up front: a list with one entry that may not be set changes nothing and sends nothing, and the
  // error is the first such entry's; a list without one is written in order, and its error can only be the
  // adapter's.
  lemma SetConfigChecksFirst(d: J.Device, loopback: bool, channel: nat, items: seq<Item>, replies: seq<J.Reply>)
    requires |items| == |replies| && J.Locked(d, channel) == 0 && 1 <= |items| <= MAX_PARAMETERS
    ensures var p := SetConfig(d, loopback, channel, items, replies);
            && ((exists i :: i in items && !Settable(d.protocol, i)) ==>
                  && p.d == d && p.loopback == loopback && p.sent == [] && p.code != 0
                  && exists k :: 0 <= k < |items|
                       && (forall j :: 0 <= j < k ==> Settable(d.protocol, items[j]))
                       && Config.ValidateSet(d.protocol, items[k].parameter, items[k].value) == p.code)
            && ((forall i :: i in items ==> Settable(d.protocol, i)) ==>
                  exists done :: 0 <= done <= |items|
                    && p.sent == Writes(d.protocol, items[..done])
                    && p.loopback == LoopbackAfter(loopback, items[..done])
                    && (p.code == 0 ==> done == |items|)
                    && (p.code != 0 ==> done > 0 && items[done - 1].parameter != Config.LOOPBACK))
  {
    hide Config.ValidateSet, J.Locked, Writes, LoopbackAfter, ApplyAll;
    CheckIsAll(d.protocol, items);
    if Check(d.protocol, items) == 0 {
      var p := Progress(d, loopback, [], 0);
      var done := ApplyGoesThrough(p, items, replies);
      assert [] + Writes(d.protocol, items[..done]) == Writes(d.protocol, items[..done]);
    }
  }

  // Every bit rate handed to the adapter is one of the supported ones.
  lemma {:induction false} RatesWritten(protocol: u16, items: seq<Item>, w: (u32, u32))
    requires forall i :: i in items ==> Settable(protocol, i)
    requires w in Writes(protocol, items) && w.0 == Config.RATE_SELECTOR
    ensures Config.BaudSupported(w.1)
    decreases |items|
  {
    hide Config.Find, Config.ValidateSet;
    var l := Config.RouteOf(protocol, items[0].parameter);
    assert items[0] in items;
    if l.Found? && !l.route.host && w == (l.route.selector, items[0].value) {
      Config.SelectorIsRates(protocol, items[0].parameter);
      Config.RatesAgree(protocol, items[0].value);
    } else {
      forall i | i in items[1..] ensures Settable(protocol, i) { assert i in items; }
      RatesWritten(protocol, items[1..], w);
    }
  }

  // ---------------------------------------------------------------- the operation itself

  method CheckAll(protocol: u16, items: seq<Item>) returns (code: int)
    ensures code == Check(protocol, items)
  {
    hide Config.ValidateSet;
    code := 0;
    for i := 0 to |items|
      invariant Check(protocol, items) == Check(protocol, items[i..])
    {
      code := Config.ValidateSet(protocol, items[i].parameter, items[i].value);
      if code != 0 { return; }
      assert items[i..][1..] == items[i + 1..];
    }
  }

  // device and receiver are those of the channel; the receiver is there whenever the channel is.
  method Set(device: DeviceObject.Device, receiver: Receivers.CanReceiver, channel: nat, items: seq<Item>,
             replies: seq<J.Reply>) returns (code: int, ghost sent: seq<(u32, u32)>)
    requires |items| == |replies| && receiver.Valid()
    modifies device, receiver
    ensures receiver.Valid()
    ensures var p := SetConfig(old(device.State()), old(receiver.loopback), channel, items, replies);
            && p == Progress(device.State(), receiver.loopback, sent, code)
            && receiver.State() == WithLoopback(old(receiver.State()), p.loopback)
  {
    hide Check, ApplyItem, Can.Inv;
    sent := [];
    code := device.Lock(channel);
    if code != 0 { return; }
    if |items| == 0 || |items| > MAX_PARAMETERS { return S.ERR_FAILED, []; }
    code := CheckAll(device.protocol, items);
    if code != 0 { return; }
    ghost var start := Progress(device.State(), receiver.loopback, [], 0);
    for i := 0 to |items|
      invariant receiver.Valid() && code == 0
      invariant receiver.State() == WithLoopback(old(receiver.State()), receiver.loopback)
      invariant ApplyAll(start, items, replies)
             == ApplyAll(Progress(device.State(), receiver.loopback, sent, 0), items[i..], replies[i..])
    {
      assert items[i..][1..] == items[i + 1..] && replies[i..][1..] == replies[i + 1..];
      code, sent := SetOne(device, receiver, items[i], replies[i], sent);
      if code != 0 { return; }
    }
  }

  method SetOne(device: DeviceObject.Device, receiver: Receivers.CanReceiver, item: Item, r: J.Reply,
                ghost before: seq<(u32, u32)>) returns (code: int, ghost sent: seq<(u32, u32)>)
    requires receiver.Valid()
    modifies device, receiver
    ensures receiver.Valid()
    ensures Progress(device.State(), receiver.loopback, sent, code)
         == ApplyItem(Progress(old(device.State()), old(receiver.loopback), before, 0), item, r)
    ensures receiver.State() == WithLoopback(old(receiver.State()), receiver.loopback)
  {
    hide J.OnChannel, J.Effective, Config.RouteOf, Can.Inv;
    code, sent := 0, before;
    var l := Config.RouteOf(device.protocol, item.parameter);
    if l.Failed? { return l.code, sent; }
    if l.route.host {
      receiver.SetLoopback(item.value != 0);
    } else {
      sent := sent + [(l.route.selector, item.value)];
      var x := device.ChannelCommand(J.Plain, r);
      code := J.Accepted(x);
    }
  }

  function WithLoopback(w: Can.World, loopback: bool): Can.World {
    w.(rx := w.rx.(loopback := loopback))
  }
}
