// src/j2534.cpp: the registries of devices and channels, the one handle counter, and the lifecycle locks, as the
// threads of a process interleave on them. Each step is one critical section of the registry lock, or the taking
// or giving back of a lifecycle lock; any thread may step next.
module Handles {
  import opened Bytes
  import J = J2534

  // What an issued number is for. A ticket has been drawn by a thread and not yet been used.
  datatype Role = DeviceId(device: nat) | ChannelId(device: nat) | EntryId(device: nat) | Ticket(thread: nat)

  // A device as far as handles go; entries are the public IDs of its filters and periodic messages.
  datatype Slot = Slot(closed: bool, channel: nat, entries: set<nat>, holder: Option<nat>)

  datatype Thread =
    | Idle
    | Found(id: nat, onChannel: bool, device: nat)
    | Holding(id: nat, onChannel: bool, device: nat, ticket: Option<nat>, retired: bool)

  // issued remembers every number ever handed out.
  datatype Registry = Registry(next: nat, devices: map<nat, nat>, channels: map<nat, nat>, slots: seq<Slot>,
                               threads: map<nat, Thread>, issued: map<nat, Role>)

  const EMPTY := Registry(1, map[], map[], [], map[], map[])

  datatype Step =
    | Open
    | Find(id: nat, onChannel: bool)
    | Lock
    | Draw
    | Publish
    | Record
    | Strike(entry: nat)
    | CloseDevice
    | Retire
    | Unlock

  function At(r: Registry, t: nat): Thread {
    if t in r.threads then r.threads[t] else Idle
  }

  function Now(r: Registry, t: nat, to: Thread): Registry {
    r.(threads := r.threads[t := to])
  }

  function SetSlot(r: Registry, d: nat, slot: Slot): Registry
    requires d < |r.slots|
  {
    r.(slots := r.slots[d := slot])
  }

  predicate Shaped(r: Registry) {
    && (forall id :: id in r.devices ==> r.devices[id] < |r.slots|)
    && (forall id :: id in r.channels ==> r.channels[id] < |r.slots|)
    && (forall t :: t in r.threads ==> !r.threads[t].Idle? ==> r.threads[t].device < |r.slots|)
  }

  // PassThruOpen's last step: a new device under a new number, while there is one.
  function OpenStep(r: Registry): Registry {
    if r.next > J.MAX_HANDLE then r
    else r.(next := r.next + 1, devices := r.devices[r.next := |r.slots|],
            slots := r.slots + [Slot(false, 0, {}, None)], issued := r.issued[r.next := DeviceId(|r.slots|)])
  }

  function FindStep(r: Registry, t: nat, id: nat, onChannel: bool): Registry {
    var registry := if onChannel then r.channels else r.devices;
    if id in registry then Now(r, t, Found(id, onChannel, registry[id])) else r
  }

  // A thread that finds the device closed, or its channel not the one asked for, gives up.
  function LockStep(r: Registry, t: nat): Registry
    requires Shaped(r) && At(r, t).Found?
  {
    var f := At(r, t);
    var slot := r.slots[f.device];
    if slot.holder.Some? then r
    else if slot.closed || (f.onChannel && slot.channel != f.id) then Now(r, t, Idle)
    else SetSlot(Now(r, t, Holding(f.id, f.onChannel, f.device, None, false)), f.device, slot.(holder := Some(t)))
  }

  function DrawStep(r: Registry, t: nat): Registry
    requires At(r, t).Holding?
  {
    if r.next > J.MAX_HANDLE || At(r, t).ticket.Some? then r
    else Now(r.(next := r.next + 1, issued := r.issued[r.next := Ticket(t)]), t, At(r, t).(ticket := Some(r.next)))
  }

  // Connect, which has checked under the lock that the device has no channel.
  function PublishStep(r: Registry, t: nat): Registry
    requires Shaped(r) && At(r, t).Holding?
  {
    var h := At(r, t);
    if h.onChannel || h.ticket.None? || r.slots[h.device].channel != 0 || r.slots[h.device].closed then r
    else
      var c := h.ticket.value;
      SetSlot(Now(r.(channels := r.channels[c := h.device], issued := r.issued[c := ChannelId(h.device)]), t,
                  h.(ticket := None)),
              h.device, r.slots[h.device].(channel := c))
  }

  // Starting a filter or a periodic message.
  function RecordStep(r: Registry, t: nat): Registry
    requires Shaped(r) && At(r, t).Holding?
  {
    var h := At(r, t);
    if !h.onChannel || h.retired || h.ticket.None? then r
    else
      var e := h.ticket.value;
      var slot := r.slots[h.device];
      SetSlot(Now(r.(issued := r.issued[e := EntryId(h.device)]), t, h.(ticket := None)),
              h.device, slot.(entries := slot.entries + {e}))
  }

  // Stopping one.
  function StrikeStep(r: Registry, t: nat, e: nat): Registry
    requires Shaped(r) && At(r, t).Holding?
  {
    var h := At(r, t);
    if !h.onChannel || h.retired then r
    else SetSlot(r, h.device, r.slots[h.device].(entries := r.slots[h.device].entries - {e}))
  }

  function CloseStep(r: Registry, t: nat): Registry
    requires Shaped(r) && At(r, t).Holding?
  {
    var h := At(r, t);
    if h.onChannel then r
    else SetSlot(r.(devices := r.devices - {h.id}), h.device, r.slots[h.device].(closed := true))
  }

  // retire_channel: by Disconnect, or by Close once it has closed the device.
  function RetireStep(r: Registry, t: nat): Registry
    requires Shaped(r) && At(r, t).Holding?
  {
    var h := At(r, t);
    var slot := r.slots[h.device];
    if !h.onChannel && !slot.closed then r
    else SetSlot(Now(r.(channels := r.channels - {slot.channel}), t, h.(retired := true)),
                 h.device, slot.(channel := 0, entries := {}))
  }

  function UnlockStep(r: Registry, t: nat): Registry
    requires Shaped(r) && At(r, t).Holding?
  {
    SetSlot(Now(r, t, Idle), At(r, t).device, r.slots[At(r, t).device].(holder := None))
  }

  function Next(r: Registry, t: nat, step: Step): Registry
    requires Shaped(r)
  {
    match At(r, t)
    case Idle => if step.Open? then OpenStep(r) else if step.Find? then FindStep(r, t, step.id, step.onChannel) else r
    case Found(_, _, _) => if step.Lock? then LockStep(r, t) else r
    case Holding(_, _, _, _, _) =>
      match step
      case Draw => DrawStep(r, t)
      case Publish => PublishStep(r, t)
      case Record => RecordStep(r, t)
      case Strike(e) => StrikeStep(r, t, e)
      case CloseDevice => CloseStep(r, t)
      case Retire => RetireStep(r, t)
      case Unlock => UnlockStep(r, t)
      case _ => r
  }

  // ---------------------------------------------------------------- what every step keeps

  predicate Known(r: Registry, id: nat, role: Role) {
    id in r.issued && r.issued[id] == role
  }

  ghost predicate Numbers(r: Registry) {
    && r.next > 0
    && (forall id :: id in r.issued ==> 0 < id < r.next)
    && (forall id :: id in r.devices ==> Known(r, id, DeviceId(r.devices[id])))
    && (forall id :: id in r.channels ==> Known(r, id, ChannelId(r.channels[id])))
    && (forall d, e :: 0 <= d < |r.slots| && e in r.slots[d].entries ==> Known(r, e, EntryId(d)))
  }

  ghost predicate Channels(r: Registry)
    requires Shaped(r)
  {
    && (forall id :: id in r.channels ==> r.slots[r.channels[id]].channel == id)
    && (forall d :: 0 <= d < |r.slots| && r.slots[d].channel != 0 ==>
          r.slots[d].channel in r.channels && r.channels[r.slots[d].channel] == d)
    && (forall d :: 0 <= d < |r.slots| && r.slots[d].channel == 0 ==> r.slots[d].entries == {})
  }

  predicate Honest(r: Registry, t: nat, th: Thread) {
    match th
    case Idle => true
    case Found(id, onChannel, d) => d < |r.slots| && Known(r, id, if onChannel then ChannelId(d) else DeviceId(d))
    case Holding(id, onChannel, d, ticket, retired) =>
      && d < |r.slots| && r.slots[d].holder == Some(t)
      && Known(r, id, if onChannel then ChannelId(d) else DeviceId(d))
      && (onChannel && !retired ==> r.slots[d].channel == id && !r.slots[d].closed)
      && (ticket.Some? ==> Known(r, ticket.value, Ticket(t)))
  }

  ghost predicate Threads(r: Registry) {
    forall t :: t in r.threads ==> Honest(r, t, r.threads[t])
  }

  ghost predicate Inv(r: Registry) {
    Shaped(r) && Numbers(r) && Channels(r) && Threads(r)
  }

  // Another thread's honesty survives a step that leaves its device, its numbers and their roles as they were.
  lemma HonestKept(r: Registry, q: Registry, t: nat, th: Thread)
    requires Honest(r, t, th)
    requires th.Found? || th.Holding? ==>
               && th.device < |r.slots| <= |q.slots|
               && (th.id in r.issued ==> th.id in q.issued && q.issued[th.id] == r.issued[th.id])
    requires th.Holding? ==> q.slots[th.device] == r.slots[th.device]
    requires th.Holding? && th.ticket.Some? ==>
               th.ticket.value in r.issued ==> th.ticket.value in q.issued && q.issued[th.ticket.value] == r.issued[th.ticket.value]
    ensures Honest(q, t, th)
  {
  }

  lemma OpenInv(r: Registry)
    requires Inv(r)
    ensures Inv(OpenStep(r))
  {
    var q := OpenStep(r);
    assert r.next !in r.issued;
    forall t | t in q.threads ensures Honest(q, t, q.threads[t]) { HonestKept(r, q, t, r.threads[t]); }
  }

  lemma FindInv(r: Registry, t: nat, id: nat, onChannel: bool)
    requires Inv(r)
    ensures Inv(FindStep(r, t, id, onChannel))
  {
  }

  lemma LockInv(r: Registry, t: nat)
    requires Inv(r) && At(r, t).Found?
    ensures Inv(LockStep(r, t))
  {
    var q := LockStep(r, t);
    if r.slots[At(r, t).device].holder == None {
      assert Honest(r, t, At(r, t));
      forall u | u in q.threads ensures Honest(q, u, q.threads[u]) {
        if u != t { HonestOther(r, q, t, u, At(r, t).device); }
      }
    }
  }

  // The same for any thread but the one that acts, when only the slot of one device changes and that thread does
  // not hold it.
  lemma HonestOther(r: Registry, q: Registry, t: nat, u: nat, d: nat)
    requires Inv(r) && u in r.threads && u != t && |q.slots| == |r.slots|
    requires forall e :: 0 <= e < |r.slots| && e != d ==> q.slots[e] == r.slots[e]
    requires d < |r.slots| && (r.slots[d].holder == Some(t) || r.slots[d].holder == None)
    requires forall id :: id in r.issued && r.issued[id] != Ticket(t) ==> id in q.issued && q.issued[id] == r.issued[id]
    ensures Honest(q, u, r.threads[u])
  {
    assert Honest(r, u, r.threads[u]);
    HonestKept(r, q, u, r.threads[u]);
  }

  lemma DrawInv(r: Registry, t: nat)
    requires Inv(r) && At(r, t).Holding?
    ensures Inv(DrawStep(r, t))
  {
    var q := DrawStep(r, t);
    assert r.next !in r.issued;
    assert Honest(r, t, At(r, t));
    forall u | u in q.threads ensures Honest(q, u, q.threads[u]) {
      if u != t { HonestOther(r, q, t, u, At(r, t).device); }
    }
  }

  lemma PublishInv(r: Registry, t: nat)
    requires Inv(r) && At(r, t).Holding?
    ensures Inv(PublishStep(r, t))
  {
    var q := PublishStep(r, t);
    assert Honest(r, t, At(r, t));
    forall u | u in q.threads ensures Honest(q, u, q.threads[u]) {
      if u != t { HonestOther(r, q, t, u, At(r, t).device); }
    }
  }

  lemma RecordInv(r: Registry, t: nat)
    requires Inv(r) && At(r, t).Holding?
    ensures Inv(RecordStep(r, t))
  {
    var q := RecordStep(r, t);
    assert Honest(r, t, At(r, t));
    forall u | u in q.threads ensures Honest(q, u, q.threads[u]) {
      if u != t { HonestOther(r, q, t, u, At(r, t).device); }
    }
  }

  lemma StrikeInv(r: Registry, t: nat, e: nat)
    requires Inv(r) && At(r, t).Holding?
    ensures Inv(StrikeStep(r, t, e))
  {
    var q := StrikeStep(r, t, e);
    assert Honest(r, t, At(r, t));
    forall u | u in q.threads ensures Honest(q, u, q.threads[u]) {
      if u != t { HonestOther(r, q, t, u, At(r, t).device); }
    }
  }

  lemma CloseInv(r: Registry, t: nat)
    requires Inv(r) && At(r, t).Holding?
    ensures Inv(CloseStep(r, t))
  {
    var q := CloseStep(r, t);
    assert Honest(r, t, At(r, t));
    forall u | u in q.threads ensures Honest(q, u, q.threads[u]) {
      if u != t { HonestOther(r, q, t, u, At(r, t).device); }
    }
  }

  lemma RetireInv(r: Registry, t: nat)
    requires Inv(r) && At(r, t).Holding?
    ensures Inv(RetireStep(r, t))
  {
    var q := RetireStep(r, t);
    assert Honest(r, t, At(r, t));
    assert 0 !in r.channels;
    forall u | u in q.threads ensures Honest(q, u, q.threads[u]) {
      if u != t { HonestOther(r, q, t, u, At(r, t).device); }
    }
  }

  lemma UnlockInv(r: Registry, t: nat)
    requires Inv(r) && At(r, t).Holding?
    ensures Inv(UnlockStep(r, t))
  {
    var q := UnlockStep(r, t);
    assert Honest(r, t, At(r, t));
    forall u | u in q.threads ensures Honest(q, u, q.threads[u]) {
      if u != t { HonestOther(r, q, t, u, At(r, t).device); }
    }
  }

  lemma NextInv(r: Registry, t: nat, step: Step)
    requires Inv(r)
    ensures Inv(Next(r, t, step))
  {
    hide Inv, OpenStep, FindStep, LockStep, DrawStep, PublishStep, RecordStep, StrikeStep, CloseStep, RetireStep, UnlockStep;
    match At(r, t)
    case Idle =>
      if step.Open? { OpenInv(r); } else if step.Find? { FindInv(r, t, step.id, step.onChannel); }
    case Found(_, _, _) => if step.Lock? { LockInv(r, t); }
    case Holding(_, _, _, _, _) =>
      match step
      case Draw => DrawInv(r, t);
      case Publish => PublishInv(r, t);
      case Record => RecordInv(r, t);
      case Strike(e) => StrikeInv(r, t, e);
      case CloseDevice => CloseInv(r, t);
      case Retire => RetireInv(r, t);
      case Unlock => UnlockInv(r, t);
      case _ =>
  }

  // ---------------------------------------------------------------- whole runs

  datatype Move = Move(thread: nat, step: Step)

  ghost predicate Reaches(r: Registry, moves: seq<Move>, q: Registry)
    decreases |moves|
  {
    if moves == [] then r == q
    else Shaped(r) && Reaches(Next(r, moves[0].thread, moves[0].step), moves[1..], q)
  }

  lemma {:induction false} ReachesInv(r: Registry, moves: seq<Move>, q: Registry)
    requires Inv(r) && Reaches(r, moves, q)
    ensures Inv(q)
    decreases |moves|
  {
    hide Next, Inv;
    if moves != [] {
      NextInv(r, moves[0].thread, moves[0].step);
      ReachesInv(Next(r, moves[0].thread, moves[0].step), moves[1..], q);
    }
  }

  // Whatever the threads of a process do between a lookup and the lock: a thread that gets to act on a channel
  // holds the lifecycle lock of the device that number was issued for, as a channel number, and that device's
  // channel still has that number; no other thread holds the lock; and no other number names a channel of it.
  lemma ActsOnItsOwnChannel(moves: seq<Move>, r: Registry, t: nat)
    requires Reaches(EMPTY, moves, r) && At(r, t).Holding? && At(r, t).onChannel && !At(r, t).retired
    ensures var h := At(r, t);
            && Known(r, h.id, ChannelId(h.device)) && h.device < |r.slots|
            && h.id in r.channels && r.channels[h.id] == h.device && r.slots[h.device].channel == h.id
            && !r.slots[h.device].closed
            && (forall u :: At(r, u).Holding? && At(r, u).device == h.device ==> u == t)
            && (forall c :: c in r.channels && r.channels[c] == h.device ==> c == h.id)
  {
    hide Next;
    EmptyInv();
    ReachesInv(EMPTY, moves, r);
    assert Honest(r, t, At(r, t));
    assert At(r, t).id != 0;
    forall u | At(r, u).Holding? && At(r, u).device == At(r, t).device ensures u == t {
      assert Honest(r, u, At(r, u));
    }
  }

  lemma EmptyInv()
    ensures Inv(EMPTY)
  {
  }

  // Numbers are drawn in increasing order, and what one was used for never changes.
  lemma RolesStay(r: Registry, t: nat, step: Step)
    requires Inv(r)
    ensures var q := Next(r, t, step);
            && r.next <= q.next
            && (forall id :: id in q.issued && id !in r.issued ==> id == r.next && q.next == r.next + 1)
            && (forall id :: id in r.issued && !r.issued[id].Ticket? ==> Known(q, id, r.issued[id]))
  {
    assert t in r.threads ==> Honest(r, t, At(r, t));
  }

  // A channel number whose channel is gone.
  predicate Spent(r: Registry, id: nat) {
    id in r.issued && !r.issued[id].Ticket? && id !in r.channels
  }

  lemma SpentStays(r: Registry, t: nat, step: Step, id: nat)
    requires Inv(r) && Spent(r, id)
    ensures Spent(Next(r, t, step), id)
  {
    RolesStay(r, t, step);
    assert t in r.threads ==> Honest(r, t, At(r, t));
  }

  // A number that once named a channel and no longer does never does again: later lookups do not find it, and a
  // thread that had found it before the channel went away, however long ago, is turned away at the lock.
  lemma {:induction false} SpentForGood(r: Registry, moves: seq<Move>, q: Registry, id: nat, t: nat)
    requires Inv(r) && Reaches(r, moves, q) && Spent(r, id)
    ensures Inv(q) && id !in q.channels
    ensures At(q, t).Idle? ==> At(Next(q, t, Find(id, true)), t).Idle?
    ensures At(q, t).Found? && At(q, t).onChannel && At(q, t).id == id ==> !At(Next(q, t, Lock), t).Holding?
    decreases |moves|
  {
    hide Next;
    if moves == [] {
      SpentRefused(r, id, t);
    } else {
      NextInv(r, moves[0].thread, moves[0].step);
      SpentStays(r, moves[0].thread, moves[0].step, id);
      SpentForGood(Next(r, moves[0].thread, moves[0].step), moves[1..], q, id, t);
    }
  }

  lemma SpentRefused(r: Registry, id: nat, t: nat)
    requires Inv(r) && Spent(r, id)
    ensures At(r, t).Idle? ==> At(Next(r, t, Find(id, true)), t).Idle?
    ensures At(r, t).Found? && At(r, t).onChannel && At(r, t).id == id ==> !At(Next(r, t, Lock), t).Holding?
  {
    assert t in r.threads ==> Honest(r, t, At(r, t));
  }

  // One number is never two things: not a device and a channel, not a filter's or a periodic message's and either.
  lemma OneRoleEach(moves: seq<Move>, r: Registry, id: nat)
    requires Reaches(EMPTY, moves, r)
    ensures Shaped(r) && !(id in r.devices && id in r.channels)
    ensures forall d, e :: 0 <= d < |r.slots| && 0 <= e < |r.slots| && id in r.slots[d].entries ==>
              id !in r.devices && id !in r.channels && (id in r.slots[e].entries ==> e == d)
  {
    hide Next;
    EmptyInv();
    ReachesInv(EMPTY, moves, r);
  }

  // ---------------------------------------------------------------- numbers work

  // A thread that is idle while a device is free finds it under the number Open gave it, and gets its lock.
  lemma OpenedWorks(r: Registry, t: nat, u: nat)
    requires Inv(r) && At(r, t).Idle? && At(r, u).Idle? && r.next <= J.MAX_HANDLE
    ensures var open := Next(r, t, Open);
            && Inv(open) && r.next in open.devices
            && var found := Next(open, u, Find(r.next, false));
            && Inv(found)
            && At(Next(found, u, Lock), u) == Holding(r.next, false, |r.slots|, None, false)
  {
    NextInv(r, t, Open);
    NextInv(Next(r, t, Open), u, Find(r.next, false));
  }

  // And a channel under the number Connect published, once Connect has let the device go.
  lemma PublishedWorks(r: Registry, t: nat, u: nat)
    requires Inv(r) && At(r, t).Holding? && !At(r, t).onChannel && At(r, t).ticket.Some? && At(r, u).Idle?
    requires var slot := r.slots[At(r, t).device]; slot.channel == 0 && !slot.closed
    ensures var d, c := At(r, t).device, At(r, t).ticket.value;
            var published := Next(r, t, Publish);
            && Inv(published) && c in published.channels && published.channels[c] == d
            && var free := Next(published, t, Unlock);
            && Inv(free)
            && var found := Next(free, u, Find(c, true));
            && Inv(found)
            && At(Next(found, u, Lock), u) == Holding(c, true, d, None, false)
  {
    hide Inv;
    HoldingShaped(r, t);
    NextInv(r, t, Publish);
    NextInv(Next(r, t, Publish), t, Unlock);
    NextInv(Next(Next(r, t, Publish), t, Unlock), u, Find(At(r, t).ticket.value, true));
  }

  lemma HoldingShaped(r: Registry, t: nat)
    requires Inv(r) && At(r, t).Holding?
    ensures Shaped(r) && At(r, t).device < |r.slots|
  {
  }
}
