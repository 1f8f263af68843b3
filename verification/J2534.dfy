// src/j2534.cpp: one opened device, its channel and its filter and periodic handles, as values; and beside them
// the adapter's tables. Each operation runs under the device's lifecycle lock, so it is one step here.
module J2534 {
  import opened Bytes
  import Can
  import Config
  import S = Session

  const ERR_INVALID_PROTOCOL_ID := 3
  const ERR_INVALID_FLAGS := 6
  const ERR_INVALID_MSG := 10
  const ERR_INVALID_MSG_ID := 13
  const ERR_CHANNEL_IN_USE := 20
  const ERR_INVALID_FILTER_ID := 22
  const ERR_INVALID_BAUDRATE := 25
  const ERR_INVALID_DEVICE_ID := 26
  const ERR_NULL_PARAMETER := 4

  const PASS_FILTER: u32 := 1
  const BLOCK_FILTER: u32 := 2
  const FLOW_CONTROL_FILTER: u32 := 3
  const CAN_29BIT_ID: u32 := 0x100

  const TABLE_PASS := 0
  const TABLE_BLOCK := 1
  const TABLE_FLOW_CONTROL := 2
  const TABLE_PERIODIC := 4

  const MAX_HANDLE := 0xffff_ffff
  const MAX_FLOW_FILTERS := 64
  const MAX_PERIODICS := 10

  // ---------------------------------------------------------------- the adapter

  // An adapter's filter handle is known by the table it lives in.
  datatype Filter = Filter(handle: u32, table: nat)

  // What the adapter holds: whether a channel is open, the filters of tables 0, 1 and 2, and table 4.
  datatype Adapter = Adapter(open: bool, filters: set<Filter>, periodic: set<u32>)

  datatype Cmd = OpenChannel | SetUp | CloseChannel | CloseDevice | Plain
               | Add(table: nat) | Drop(table: nat, handle: u32) | Clear(table: nat)

  // What carrying a command out does; `granted` is the handle the adapter gives a new entry. Opening and closing
  // a channel leave no filters, but do not touch the periodic table.
  function Apply(a: Adapter, c: Cmd, granted: u32): Adapter {
    match c
    case OpenChannel => a.(open := true, filters := {})
    case CloseChannel => a.(open := false, filters := {})
    case Add(t) =>
      if t == TABLE_PERIODIC then a.(periodic := a.periodic + {granted})
      else a.(filters := a.filters + {Filter(granted, t)})
    case Drop(t, h) =>
      if t == TABLE_PERIODIC then a.(periodic := a.periodic - {h}) else a.(filters := a.filters - {Filter(h, t)})
    case Clear(t) =>
      if t == TABLE_PERIODIC then a.(periodic := {})
      else a.(filters := set f | f in a.filters && f.table != t)
    case SetUp => a
    case CloseDevice => a
    case Plain => a
  }

  type Failure = x: int | x > 0 witness 1
  type GeneralSize = x: nat | x >= 20 witness 20

  // How a command can end. An answer has at least the twenty octets of a general response, and a status other
  // than zero means that the adapter changed nothing. Without an answer either nothing was written, or the
  // session is finished and the adapter may or may not have acted.
  datatype Reply = Answered(status: u32, size: GeneralSize, handle: u32)
                 | Unsent(dies: bool, code: Failure)
                 | Lost(applied: bool, handle: u32, code: Failure)

  // ---------------------------------------------------------------- the device

  // next is one more than the last handle issued to anyone; usable is the session's. found is the adapter as it
  // was when the device was opened, in whatever state an earlier user left it; no operation looks at it.
  datatype Device = Device(closed: bool, reopen: bool, wireOpen: bool, untracked: bool, channel: nat, flags: u32,
                           protocol: u16, filters: map<nat, Filter>, periodics: map<nat, u32>, next: nat,
                           usable: bool, adapter: Adapter, found: Adapter)

  datatype Done = Done(d: Device, code: int, id: nat)

  // What the reply comes to: an unusable session sends nothing.
  function Effective(d: Device, r: Reply): Reply {
    if d.usable then r
    else if r.Unsent? then r
    else Unsent(false, S.ERR_DEVICE_NOT_CONNECTED)
  }

  function Send(d: Device, c: Cmd, r: Reply): Device {
    match Effective(d, r)
    case Answered(status, _, h) => if status == 0 then d.(adapter := Apply(d.adapter, c, h)) else d
    case Unsent(dies, _) => d.(usable := d.usable && !dies)
    case Lost(applied, h, _) =>
      d.(usable := false, adapter := if applied then Apply(d.adapter, c, h) else d.adapter)
  }

  // accepted() of a reply: zero, or the error thrown.
  function Accepted(x: Reply): int {
    match x
    case Answered(status, _, _) => if status == 0 then 0 else S.ERR_FAILED
    case Unsent(_, code) => code
    case Lost(_, _, code) => code
  }

  function Code(d: Device, r: Reply): int {
    Accepted(Effective(d, r))
  }

  // channel_command: a failure on a session that has become unusable makes the channel uncertain.
  function OnChannel(d: Device, c: Cmd, r: Reply): Device {
    var e := Send(d, c, r);
    if Effective(d, r).Answered? || e.usable then e else e.(reopen := true)
  }

  // 0 when the operation may go on under the lock.
  function Locked(d: Device, channel: nat): int {
    if d.closed || channel == 0 || d.channel != channel then S.ERR_INVALID_CHANNEL_ID
    else if d.reopen then S.ERR_DEVICE_NOT_CONNECTED
    else 0
  }

  // The handle the counter gives after `skip` were issued elsewhere; none past 2^32 - 1.
  function Allocate(d: Device, skip: nat): Option<nat> {
    if d.next + skip > MAX_HANDLE then None else Some(d.next + skip)
  }

  function Took(d: Device, id: nat): Device {
    d.(next := id + 1)
  }

  function HadPeriodic(d: Device): bool {
    d.untracked || d.periodics != map[]
  }

  function Retire(d: Device): Device {
    d.(filters := map[], periodics := map[], channel := 0)
  }

  function ClearPeriodicTable(d: Device, r: Reply): Device {
    var e := OnChannel(d, Clear(TABLE_PERIODIC), r);
    if Code(d, r) == 0 then e.(periodics := map[], untracked := false) else e
  }

  // ---------------------------------------------------------------- operations

  function ConnectRefusal(d: Device, protocol: u32, flags: u32, baud: u32): int {
    var can := protocol == Can.CAN || protocol == Can.ISO15765;
    if d.closed then ERR_INVALID_DEVICE_ID
    else if protocol < 1 || protocol > Can.ISO15765 then ERR_INVALID_PROTOCOL_ID
    else if baud == 0 then ERR_INVALID_BAUDRATE
    else if d.reopen then S.ERR_DEVICE_NOT_CONNECTED
    else if can && d.channel != 0 then ERR_CHANNEL_IN_USE
    else if !can then Config.ERR_NOT_SUPPORTED
    else if !Config.BaudSupported(baud) then ERR_INVALID_BAUDRATE
    else if flags != 0 && !(protocol == Can.CAN && flags == CAN_29BIT_ID) then ERR_INVALID_FLAGS
    else 0
  }

  // stored: whether the registry could take the new channel. The last reply is the one to the close that undoes
  // a channel that could not be set up.
  function Connect(d: Device, protocol: u32, flags: u32, baud: u32, skip: nat,
                   opening: Reply, setUp: Reply, stored: bool, undone: Reply): Done {
    var refusal := ConnectRefusal(d, protocol, flags, baud);
    if refusal != 0 then Done(d, refusal, 0)
    else
      match Allocate(d, skip)
      case None => Done(d, S.ERR_EXCEEDED_LIMIT, 0)
      case Some(id) => Open(Took(d, id).(protocol := protocol), id, flags, opening, setUp, stored, undone)
  }

  function Open(d: Device, id: nat, flags: u32, opening: Reply, setUp: Reply, stored: bool, undone: Reply): Done {
    var e := OnChannel(d, OpenChannel, opening);
    if Code(d, opening) != 0 then Done(e, Code(d, opening), 0)
    else Publish(e.(wireOpen := true), id, flags, setUp, stored, undone)
  }

  function Publish(d: Device, id: nat, flags: u32, setUp: Reply, stored: bool, undone: Reply): Done {
    var e := OnChannel(d, SetUp, setUp);
    if Code(d, setUp) == 0 && stored then Done(e.(channel := id, flags := flags), 0, id)
    else Done(Undo(e, undone), if Code(d, setUp) != 0 then Code(d, setUp) else S.ERR_FAILED, 0)
  }

  function Undo(d: Device, undone: Reply): Device {
    if d.reopen then d
    else
      var e := OnChannel(d, CloseChannel, undone);
      if Code(d, undone) == 0 then e.(wireOpen := false) else e.(reopen := true)
  }

  function Disconnect(d: Device, channel: nat, cleared: Reply, closed: Reply): Done {
    if d.closed || channel == 0 || d.channel != channel then Done(d, S.ERR_INVALID_CHANNEL_ID, 0)
    else
      var d1 := Retire(d);
      var d2 := if HadPeriodic(d) then ClearPeriodicTable(d1, cleared) else d1;
      var bad := if HadPeriodic(d) then Code(d1, cleared) else 0;
      ShutChannel(d2, bad, closed)
  }

  function ShutChannel(d: Device, bad: int, closed: Reply): Done {
    var e := OnChannel(d, CloseChannel, closed);
    if Code(d, closed) != 0 then Done(e.(reopen := true), Code(d, closed), 0)
    else if bad != 0 then Done(e.(wireOpen := false, reopen := true), bad, 0)
    else Done(e.(wireOpen := false), 0, 0)
  }

  // The session's own close reports nothing the model can fail on, and leaves it unusable.
  function Close(d: Device, cleared: Reply, closed: Reply, farewell: Reply): Done {
    if d.closed then Done(d, ERR_INVALID_DEVICE_ID, 0)
    else
      var d1 := Retire(d.(closed := true));
      var clears := d.wireOpen && HadPeriodic(d);
      var d2 := if clears then ClearPeriodicTable(d1, cleared) else d1;
      var bad2 := if clears then Code(d1, cleared) else 0;
      Leave(d2, bad2, closed, farewell)
  }

  function Leave(d: Device, bad: int, closed: Reply, farewell: Reply): Done {
    var e := CloseWire(d, closed);
    var worse := if d.wireOpen then Code(d, closed) else 0;
    Done(Send(e, CloseDevice, farewell).(usable := false),
         if worse != 0 then worse else if bad != 0 then bad else Code(e, farewell), 0)
  }

  function CloseWire(d: Device, closed: Reply): Device {
    if !d.wireOpen then d
    else
      var e := OnChannel(d, CloseChannel, closed);
      if Code(d, closed) == 0 then e.(wireOpen := false) else e
  }

  function InTable(filters: map<nat, Filter>, table: nat): set<nat> {
    set id | id in filters && filters[id].table == table
  }

  // encoded: 0, or the error the payload encoder throws.
  function FilterRefusal(d: Device, kind: u32, hasFlow: bool, encoded: nat): int {
    if d.protocol == Can.ISO15765 then
      if kind != FLOW_CONTROL_FILTER then Config.ERR_NOT_SUPPORTED
      else if !hasFlow then ERR_NULL_PARAMETER
      else if |InTable(d.filters, TABLE_FLOW_CONTROL)| >= MAX_FLOW_FILTERS then S.ERR_EXCEEDED_LIMIT
      else encoded
    else if kind != PASS_FILTER && kind != BLOCK_FILTER then Config.ERR_NOT_SUPPORTED
    else if hasFlow then ERR_INVALID_MSG
    else encoded
  }

  function TableFor(d: Device, kind: u32): nat {
    if d.protocol == Can.ISO15765 then TABLE_FLOW_CONTROL
    else if kind == BLOCK_FILTER then TABLE_BLOCK
    else TABLE_PASS
  }

  // kept: whether the host could record the handle. dropped is the reply to the removal that then follows.
  function StartFilter(d: Device, channel: nat, kind: u32, hasFlow: bool, encoded: nat, skip: nat,
                       added: Reply, kept: bool, dropped: Reply): Done {
    var refusal := if Locked(d, channel) != 0 then Locked(d, channel) else FilterRefusal(d, kind, hasFlow, encoded);
    if refusal != 0 then Done(d, refusal, 0)
    else
      match Allocate(d, skip)
      case None => Done(d, S.ERR_EXCEEDED_LIMIT, 0)
      case Some(id) => AddFilter(Took(d, id), id, TableFor(d, kind), added, kept, dropped)
  }

  function AddFilter(d: Device, id: nat, table: nat, added: Reply, kept: bool, dropped: Reply): Done {
    var e := OnChannel(d, Add(table), added);
    if Code(d, added) != 0 then Done(e, Code(d, added), 0)
    else if Effective(d, added).size < 24 then Done(e.(reopen := true), S.ERR_FAILED, 0)
    else RecordFilter(e, id, Filter(Effective(d, added).handle, table), kept, dropped)
  }

  function RecordFilter(d: Device, id: nat, f: Filter, kept: bool, dropped: Reply): Done {
    if kept then Done(d.(filters := d.filters[id := f]), 0, id)
    else
      var e := OnChannel(d, Drop(f.table, f.handle), dropped);
      Done(if Code(d, dropped) == 0 then e else e.(reopen := true), S.ERR_FAILED, 0)
  }

  function StopFilter(d: Device, channel: nat, id: nat, r: Reply): Done {
    if Locked(d, channel) != 0 then Done(d, Locked(d, channel), 0)
    else if id !in d.filters then Done(d, ERR_INVALID_FILTER_ID, 0)
    else
      var e := OnChannel(d, Drop(d.filters[id].table, d.filters[id].handle), r);
      if Code(d, r) != 0 then Done(e, Code(d, r), 0)
      else Done(e.(filters := e.filters - {id}), 0, 0)
  }

  // CLEAR_MSG_FILTERS: the tables in turn, stopping at the first that is not cleared.
  function ClearFilters(d: Device, channel: nat, replies: seq<Reply>): Done
    requires |replies| == 3
  {
    if Locked(d, channel) != 0 then Done(d, Locked(d, channel), 0)
    else ClearFrom(d, TABLE_PASS, replies)
  }

  function ClearFrom(d: Device, table: nat, replies: seq<Reply>): Done
    requires |replies| == 3 && table <= 3
    decreases 3 - table
  {
    if table == 3 then Done(d, 0, 0)
    else if InTable(d.filters, table) == {} then ClearFrom(d, table + 1, replies)
    else
      var e := OnChannel(d, Clear(table), replies[table]);
      if Code(d, replies[table]) != 0 then Done(e, Code(d, replies[table]), 0)
      else ClearFrom(e.(filters := e.filters - InTable(e.filters, table)), table + 1, replies)
  }

  function StartPeriodic(d: Device, channel: nat, encoded: nat, skip: nat,
                         added: Reply, kept: bool, dropped: Reply): Done {
    var refusal := if Locked(d, channel) != 0 then Locked(d, channel)
                   else if d.protocol != Can.CAN then Config.ERR_NOT_SUPPORTED
                   else if encoded != 0 then encoded
                   else if |d.periodics| >= MAX_PERIODICS then S.ERR_EXCEEDED_LIMIT
                   else 0;
    if refusal != 0 then Done(d, refusal, 0)
    else
      match Allocate(d, skip)
      case None => Done(d, S.ERR_EXCEEDED_LIMIT, 0)
      case Some(id) => AddPeriodic(Took(d, id), id, added, kept, dropped)
  }

  function AddPeriodic(d: Device, id: nat, added: Reply, kept: bool, dropped: Reply): Done {
    var d1 := d.(untracked := true);
    SettlePeriodic(OnChannel(d1, Add(TABLE_PERIODIC), added), id, Effective(d1, added), d.untracked, kept, dropped)
  }

  // The entry is suspected in the adapter's table until it is known to be there and recorded, or known not to be.
  function SettlePeriodic(d: Device, id: nat, r: Reply, was: bool, kept: bool, dropped: Reply): Done {
    if !r.Answered? then Done(d, Accepted(r), 0)
    else if Accepted(r) != 0 then Done(d.(untracked := was), Accepted(r), 0)
    else if r.size < 24 then Done(d.(reopen := true), S.ERR_FAILED, 0)
    else RecordPeriodic(d, id, r.handle, was, kept, dropped)
  }

  function RecordPeriodic(d: Device, id: nat, h: u32, was: bool, kept: bool, dropped: Reply): Done {
    if kept then Done(d.(periodics := d.periodics[id := h], untracked := was), 0, id)
    else
      var e := OnChannel(d, Drop(TABLE_PERIODIC, h), dropped);
      Done(if Code(d, dropped) == 0 then e.(untracked := was) else e.(reopen := true), S.ERR_FAILED, 0)
  }

  function StopPeriodic(d: Device, channel: nat, id: nat, r: Reply): Done {
    if Locked(d, channel) != 0 then Done(d, Locked(d, channel), 0)
    else if id !in d.periodics then Done(d, ERR_INVALID_MSG_ID, 0)
    else
      var e := OnChannel(d, Drop(TABLE_PERIODIC, d.periodics[id]), r);
      if Code(d, r) != 0 then Done(e, Code(d, r), 0)
      else Done(e.(periodics := e.periodics - {id}), 0, 0)
  }

  function ClearPeriodics(d: Device, channel: nat, r: Reply): Done {
    if Locked(d, channel) != 0 then Done(d, Locked(d, channel), 0)
    else if !HadPeriodic(d) then Done(d, 0, 0)
    else Done(ClearPeriodicTable(d, r), Code(d, r), 0)
  }

  // A transmit, a buffer clear or a configuration command: nothing the adapter's tables notice.
  function PlainCommand(d: Device, channel: nat, r: Reply): Done {
    if Locked(d, channel) != 0 then Done(d, Locked(d, channel), 0)
    else Done(OnChannel(d, Plain, r), Code(d, r), 0)
  }

  // ---------------------------------------------------------------- whole runs

  datatype Op =
    | OConnect(protocol: u32, flags: u32, baud: u32, skip: nat, opening: Reply, setUp: Reply, stored: bool,
               undone: Reply)
    | ODisconnect(channel: nat, cleared: Reply, shut: Reply)
    | OClose(cleared: Reply, shut: Reply, farewell: Reply)
    | OStartFilter(channel: nat, kind: u32, hasFlow: bool, encoded: nat, skip: nat, added: Reply, kept: bool,
                   dropped: Reply)
    | OStopFilter(channel: nat, id: nat, reply: Reply)
    | OClearFilters(channel: nat, pass: Reply, block: Reply, flow: Reply)
    | OStartPeriodic(channel: nat, encoded: nat, skip: nat, added: Reply, kept: bool, dropped: Reply)
    | OStopPeriodic(channel: nat, id: nat, reply: Reply)
    | OClearPeriodics(channel: nat, reply: Reply)
    | OPlain(channel: nat, reply: Reply)
    | OSessionFails

  function Do(d: Device, op: Op): Done {
    match op
    case OConnect(p, f, b, skip, r6, r12, stored, r7) => Connect(d, p, f, b, skip, r6, r12, stored, r7)
    case ODisconnect(ch, c, s) => Disconnect(d, ch, c, s)
    case OClose(c, s, f) => Close(d, c, s, f)
    case OStartFilter(ch, kind, flow, enc, skip, a, kept, r) => StartFilter(d, ch, kind, flow, enc, skip, a, kept, r)
    case OStopFilter(ch, id, r) => StopFilter(d, ch, id, r)
    case OClearFilters(ch, p, b, f) => ClearFilters(d, ch, [p, b, f])
    case OStartPeriodic(ch, enc, skip, a, kept, r) => StartPeriodic(d, ch, enc, skip, a, kept, r)
    case OStopPeriodic(ch, id, r) => StopPeriodic(d, ch, id, r)
    case OClearPeriodics(ch, r) => ClearPeriodics(d, ch, r)
    case OPlain(ch, r) => PlainCommand(d, ch, r)
    case OSessionFails => Done(d.(usable := false), 0, 0)
  }

  // The adapter gives a new filter a handle not in use in its table.
  predicate Grants(d: Device, op: Op) {
    op.OStartFilter? && Accepted(op.added) == 0 ==> Filter(op.added.handle, TableFor(d, op.kind)) !in d.adapter.filters
  }

  function RunOps(d: Device, ops: seq<Op>): Device
    decreases |ops|
  {
    if ops == [] then d else RunOps(Do(d, ops[0]).d, ops[1..])
  }

  predicate AllGrant(d: Device, ops: seq<Op>)
    decreases |ops|
  {
    ops == [] || (Grants(d, ops[0]) && AllGrant(Do(d, ops[0]).d, ops[1..]))
  }

  // ---------------------------------------------------------------- what every operation keeps

  function Tracked(filters: map<nat, Filter>): set<Filter> {
    set id | id in filters :: filters[id]
  }

  function PeriodicHandles(periodics: map<nat, u32>): set<u32> {
    set id | id in periodics :: periodics[id]
  }

  // No two public IDs stand for one entry.
  ghost predicate OneEntryEach(filters: map<nat, Filter>) {
    forall i, j :: i in filters && j in filters && i != j ==> filters[i] != filters[j]
  }

  ghost predicate Booked(d: Device) {
    && (forall id :: id in d.filters ==> id < d.next && d.filters[id].table <= TABLE_FLOW_CONTROL)
    && (forall id :: id in d.periodics ==> id < d.next)
    && d.channel < d.next
    && (d.channel == 0 ==> d.filters == map[] && d.periodics == map[])
    && (d.channel != 0 ==> d.wireOpen && !d.closed)
  }

  // The host knows whether there is a channel, and while there is, its filters are the adapter's. Without one the
  // adapter has none open either, unless it was found that way.
  ghost predicate Agree(d: Device) {
    && d.wireOpen == (d.channel != 0)
    && OneEntryEach(d.filters)
    && (d.channel != 0 ==> d.adapter.open && Tracked(d.filters) == d.adapter.filters)
    && (d.adapter.open && !d.found.open ==> d.channel != 0)
  }

  // Nothing sits in the adapter's periodic table that the host does not hold or suspect and that was not there
  // when the device was opened.
  predicate Held(d: Device) {
    d.untracked || d.adapter.periodic <= PeriodicHandles(d.periodics) + d.found.periodic
  }

  ghost predicate Inv(d: Device) {
    && Booked(d)
    && (!d.closed && !d.reopen ==> Agree(d))
    && (!d.closed && (d.channel != 0 || !d.reopen) ==> Held(d))
  }

  // A device just opened, whatever state its adapter is in.
  function JustOpened(next: nat, found: Adapter): Device {
    Device(false, false, false, false, 0, 0, Can.CAN, map[], map[], next, true, found, found)
  }

  lemma StartsWell(next: nat, found: Adapter)
    requires next > 0
    ensures Inv(JustOpened(next, found))
  {
    NothingTracked();
  }

  lemma AcceptedIsAnswer(x: Reply)
    ensures Accepted(x) == 0 ==> x.Answered? && x.status == 0
    ensures x.Answered? && Accepted(x) != 0 ==> x.status != 0 && Accepted(x) == S.ERR_FAILED
  {
  }

  lemma SendOutcome(d: Device, c: Cmd, r: Reply)
    ensures var e, x := Send(d, c, r), Effective(d, r);
            && e == d.(usable := e.usable, adapter := e.adapter)
            && (x.Answered? ==> e == if x.status == 0 then d.(adapter := Apply(d.adapter, c, x.handle)) else d)
            && (x.Unsent? ==> e.adapter == d.adapter)
            && (x.Lost? ==> !e.usable && (e.adapter == d.adapter || e.adapter == Apply(d.adapter, c, x.handle)))
            && (!x.Unsent? ==> x == r)
  {
    hide Apply;
  }

  // What a channel command can leave behind: carried out and answered; refused with nothing changed; or the
  // channel uncertain.
  lemma CommandOutcome(d: Device, c: Cmd, r: Reply)
    ensures var e, x, h := OnChannel(d, c, r), Effective(d, r), if Effective(d, r).Unsent? then 0 else Effective(d, r).handle;
            && e == d.(usable := e.usable, reopen := e.reopen, adapter := e.adapter)
            && (d.reopen ==> e.reopen)
            && (Code(d, r) == 0 ==> x.Answered? && x.status == 0 && e == d.(adapter := Apply(d.adapter, c, h)))
            && (Code(d, r) != 0 ==> e.adapter == d.adapter || (e.reopen && e.adapter == Apply(d.adapter, c, h)))
            && (!x.Unsent? ==> x == r)
            && (x.Answered? && Code(d, r) != 0 ==> x.status != 0 && e == d)
            && (!e.usable && d.usable ==> e.reopen)
  {
    hide Apply, Send, Effective;
    SendOutcome(d, c, r);
  }

  lemma ConnectKeeps(d: Device, protocol: u32, flags: u32, baud: u32, skip: nat,
                     opening: Reply, setUp: Reply, stored: bool, undone: Reply)
    requires Inv(d)
    ensures Inv(Connect(d, protocol, flags, baud, skip, opening, setUp, stored, undone).d)
  {
    hide Inv, ConnectRefusal, Open;
    if ConnectRefusal(d, protocol, flags, baud) == 0 && Allocate(d, skip).Some? {
      RefusalCovers(d, protocol, flags, baud);
      OpenKeeps(d, d.next + skip, protocol, flags, opening, setUp, stored, undone);
    }
  }

  lemma OpenKeeps(d: Device, id: nat, protocol: u16, flags: u32,
                  opening: Reply, setUp: Reply, stored: bool, undone: Reply)
    requires Inv(d) && d.channel == 0 && !d.closed && !d.reopen && d.next <= id
    ensures Inv(Open(Took(d, id).(protocol := protocol), id, flags, opening, setUp, stored, undone).d)
  {
    hide OnChannel, Code, Effective, Publish, Tracked, PeriodicHandles, OneEntryEach;
    var d1 := Took(d, id).(protocol := protocol);
    NothingTracked();
    CommandOutcome(d1, OpenChannel, opening);
    if Code(d1, opening) == 0 {
      PublishKeeps(OnChannel(d1, OpenChannel, opening).(wireOpen := true), id, flags, setUp, stored, undone);
    }
  }

  lemma PublishKeeps(d: Device, id: nat, flags: u32, setUp: Reply, stored: bool, undone: Reply)
    requires Booked(d) && d.channel == 0 && !d.closed && !d.reopen && 0 < id < d.next
    requires Held(d) && d.wireOpen && d.adapter.open && d.adapter.filters == {}
    ensures Inv(Publish(d, id, flags, setUp, stored, undone).d)
  {
    hide OnChannel, Code, Effective, Undo, Tracked, PeriodicHandles;
    NothingTracked();
    CommandOutcome(d, SetUp, setUp);
    UndoKeeps(OnChannel(d, SetUp, setUp), undone);
  }

  lemma NothingTracked()
    ensures Tracked(map[]) == {} && PeriodicHandles(map[]) == {}
  {
  }

  lemma RefusalCovers(d: Device, protocol: u32, flags: u32, baud: u32)
    requires ConnectRefusal(d, protocol, flags, baud) == 0
    ensures d.channel == 0 && !d.closed && !d.reopen && (protocol == Can.CAN || protocol == Can.ISO15765)
  {
  }

  lemma UndoKeeps(d: Device, undone: Reply)
    requires Booked(d) && d.channel == 0 && !d.closed
    requires !d.reopen ==> Held(d)
    ensures Inv(Undo(d, undone))
  {
    hide OnChannel, Code, Effective, PeriodicHandles;
    CommandOutcome(d, CloseChannel, undone);
  }

  lemma DisconnectKeeps(d: Device, channel: nat, cleared: Reply, shut: Reply)
    requires Inv(d)
    ensures Inv(Disconnect(d, channel, cleared, shut).d)
  {
    hide OnChannel, Code, Effective, ClearPeriodicTable, Tracked, PeriodicHandles;
    if !d.closed && channel != 0 && d.channel == channel {
      var d1 := Retire(d);
      ClearOutcome(d1, cleared);
      var d2 := if HadPeriodic(d) then ClearPeriodicTable(d1, cleared) else d1;
      CommandOutcome(d2, CloseChannel, shut);
      NothingTracked();
    }
  }

  lemma CloseKeeps(d: Device, cleared: Reply, shut: Reply, farewell: Reply)
    requires Inv(d)
    ensures Inv(Close(d, cleared, shut, farewell).d)
  {
    hide CloseWire, Code, Effective, Send, ClearPeriodicTable, HadPeriodic, Agree, Held;
    var d1 := Retire(d.(closed := true));
    ClearOutcome(d1, cleared);
    var d2 := if d.wireOpen && HadPeriodic(d) then ClearPeriodicTable(d1, cleared) else d1;
    CloseWireShape(d2, shut);
    SendOutcome(CloseWire(d2, shut), CloseDevice, farewell);
  }

  lemma CloseWireShape(d: Device, shut: Reply)
    ensures var e := CloseWire(d, shut);
            e == d.(usable := e.usable, reopen := e.reopen, adapter := e.adapter, wireOpen := e.wireOpen)
  {
    hide OnChannel, Code, Effective;
    CommandShape(d, CloseChannel, shut);
  }

  lemma CommandShape(d: Device, c: Cmd, r: Reply)
    ensures var e := OnChannel(d, c, r);
            e == d.(usable := e.usable, reopen := e.reopen, adapter := e.adapter)
  {
    hide OnChannel, Code, Effective;
    CommandOutcome(d, c, r);
  }

  lemma ClearOutcome(d: Device, r: Reply)
    ensures var e := ClearPeriodicTable(d, r);
            && e == d.(usable := e.usable, reopen := e.reopen, adapter := e.adapter, periodics := e.periodics,
                       untracked := e.untracked)
            && (e.periodics == d.periodics || e.periodics == map[])
            && (Code(d, r) == 0 ==> e.adapter == d.adapter.(periodic := {}) && e.reopen == d.reopen && !e.untracked)
            && (Code(d, r) != 0 ==> e.untracked == d.untracked && e.periodics == d.periodics
                                    && e.adapter.filters == d.adapter.filters && e.adapter.open == d.adapter.open)
  {
    hide OnChannel, Code, Effective;
    CommandOutcome(d, Clear(TABLE_PERIODIC), r);
  }

  lemma TrackedAdd(filters: map<nat, Filter>, id: nat, f: Filter)
    requires OneEntryEach(filters) && id !in filters && f !in Tracked(filters)
    ensures OneEntryEach(filters[id := f]) && Tracked(filters[id := f]) == Tracked(filters) + {f}
  {
    var more := filters[id := f];
    forall g | g in Tracked(filters) + {f} ensures g in Tracked(more) {
      if g != f {
        var i :| i in filters && filters[i] == g;
        assert more[i] == g;
      } else {
        assert more[id] == g;
      }
    }
    forall i, j | i in more && j in more && i != j ensures more[i] != more[j] {
      assert i in filters ==> filters[i] in Tracked(filters);
      assert j in filters ==> filters[j] in Tracked(filters);
    }
  }

  lemma TrackedDrop(filters: map<nat, Filter>, id: nat)
    requires OneEntryEach(filters) && id in filters
    ensures OneEntryEach(filters - {id}) && Tracked(filters - {id}) == Tracked(filters) - {filters[id]}
  {
    var less := filters - {id};
    forall g | g in Tracked(filters) - {filters[id]} ensures g in Tracked(less) {
      var i :| i in filters && filters[i] == g;
      assert less[i] == g;
    }
    forall g | g in Tracked(less) ensures g in Tracked(filters) - {filters[id]} {
      var i :| i in less && less[i] == g;
      assert filters[i] == g;
    }
  }

  lemma TrackedClear(filters: map<nat, Filter>, table: nat)
    requires OneEntryEach(filters)
    ensures var less := filters - InTable(filters, table);
            && OneEntryEach(less) && Tracked(less) == (set f | f in Tracked(filters) && f.table != table)
  {
    var less := filters - InTable(filters, table);
    forall g | g in Tracked(filters) && g.table != table ensures g in Tracked(less) {
      var i :| i in filters && filters[i] == g;
      assert less[i] == g;
    }
    forall g | g in Tracked(less) ensures g in Tracked(filters) && g.table != table {
      var i :| i in less && less[i] == g;
      assert filters[i] == g;
    }
  }

  lemma HandlesAdd(periodics: map<nat, u32>, id: nat, h: u32)
    requires id !in periodics
    ensures PeriodicHandles(periodics[id := h]) == PeriodicHandles(periodics) + {h}
  {
    var more := periodics[id := h];
    forall g | g in PeriodicHandles(periodics) + {h} ensures g in PeriodicHandles(more) {
      if g in PeriodicHandles(periodics) {
        var i :| i in periodics && periodics[i] == g;
        assert more[i] == g;
      } else {
        assert more[id] == g;
      }
    }
  }

  lemma HandlesDrop(periodics: map<nat, u32>, id: nat)
    requires id in periodics
    ensures PeriodicHandles(periodics) - {periodics[id]} <= PeriodicHandles(periodics - {id})
  {
    var less := periodics - {id};
    forall g | g in PeriodicHandles(periodics) - {periodics[id]} ensures g in PeriodicHandles(less) {
      var i :| i in periodics && periodics[i] == g;
      assert less[i] == g;
    }
  }

  lemma StartFilterKeeps(d: Device, channel: nat, kind: u32, hasFlow: bool, encoded: nat, skip: nat,
                         added: Reply, kept: bool, dropped: Reply)
    requires Inv(d) && (Accepted(added) == 0 ==> Filter(added.handle, TableFor(d, kind)) !in d.adapter.filters)
    ensures Inv(StartFilter(d, channel, kind, hasFlow, encoded, skip, added, kept, dropped).d)
  {
    hide FilterRefusal, AddFilter, Inv;
    if Locked(d, channel) == 0 && FilterRefusal(d, kind, hasFlow, encoded) == 0 && Allocate(d, skip).Some? {
      AddFilterKeeps(d, d.next + skip, TableFor(d, kind), added, kept, dropped);
    }
  }

  lemma AddFilterKeeps(d: Device, id: nat, table: nat, added: Reply, kept: bool, dropped: Reply)
    requires Inv(d) && !d.closed && d.channel != 0 && !d.reopen && d.next <= id && table <= TABLE_FLOW_CONTROL
    requires Accepted(added) == 0 ==> Filter(added.handle, table) !in d.adapter.filters
    ensures Inv(AddFilter(Took(d, id), id, table, added, kept, dropped).d)
  {
    hide OnChannel, Code, Effective, Tracked, OneEntryEach, PeriodicHandles;
    var d1 := Took(d, id);
    CommandOutcome(d1, Add(table), added);
    if Code(d1, added) == 0 {
      var d2, h := OnChannel(d1, Add(table), added), added.handle;
      TrackedAdd(d.filters, id, Filter(h, table));
      CommandOutcome(d2, Drop(table, h), dropped);
      assert d.adapter.filters + {Filter(h, table)} - {Filter(h, table)} == d.adapter.filters;
    }
  }

  lemma StopFilterKeeps(d: Device, channel: nat, id: nat, r: Reply)
    requires Inv(d)
    ensures Inv(StopFilter(d, channel, id, r).d)
  {
    hide OnChannel, Code, Effective, Tracked, OneEntryEach, PeriodicHandles;
    if Locked(d, channel) == 0 && id in d.filters {
      var f := d.filters[id];
      CommandOutcome(d, Drop(f.table, f.handle), r);
      TrackedDrop(d.filters, id);
      assert Filter(f.handle, f.table) == f;
    }
  }

  lemma StartPeriodicKeeps(d: Device, channel: nat, encoded: nat, skip: nat,
                           added: Reply, kept: bool, dropped: Reply)
    requires Inv(d)
    ensures Inv(StartPeriodic(d, channel, encoded, skip, added, kept, dropped).d)
  {
    hide AddPeriodic, Inv;
    if Locked(d, channel) == 0 && Allocate(d, skip).Some? {
      AddPeriodicKeeps(d, d.next + skip, added, kept, dropped);
    }
  }

  lemma AddPeriodicKeeps(d: Device, id: nat, added: Reply, kept: bool, dropped: Reply)
    requires Inv(d) && !d.closed && d.channel != 0 && !d.reopen && d.next <= id
    ensures Inv(AddPeriodic(Took(d, id), id, added, kept, dropped).d)
  {
    hide OnChannel, Accepted, Effective, Inv, PeriodicHandles, SettlePeriodic;
    InvBooked(d);
    var d1 := Took(d, id).(untracked := true);
    CommandOutcome(d1, Add(TABLE_PERIODIC), added);
    AcceptedIsAnswer(Effective(d1, added));
    SettleKeeps(d, OnChannel(d1, Add(TABLE_PERIODIC), added), id, Effective(d1, added), d.untracked, kept, dropped);
  }

  // before: the device as it was when the operation began.
  lemma SettleKeeps(before: Device, d: Device, id: nat, r: Reply, was: bool, kept: bool, dropped: Reply)
    requires Inv(before) && before.channel != 0 && !before.reopen && !before.closed
    requires before.next <= id && was == before.untracked
    requires d == before.(usable := d.usable, reopen := d.reopen, untracked := true, next := id + 1,
                          adapter := before.adapter.(periodic := d.adapter.periodic))
    requires r.Answered? && r.status == 0 ==> d.adapter.periodic == before.adapter.periodic + {r.handle}
    requires r.Answered? && r.status != 0 ==> d.adapter.periodic == before.adapter.periodic
    ensures Inv(SettlePeriodic(d, id, r, was, kept, dropped).d)
  {
    hide RecordPeriodic, Inv;
    InvBooked(before);
    if r.Answered? && r.status == 0 && r.size >= 24 {
      RecordKeeps(before, d, id, r.handle, was, kept, dropped);
    } else {
      PeriodicsKeep(before, SettlePeriodic(d, id, r, was, kept, dropped).d);
    }
  }

  lemma RecordKeeps(before: Device, d: Device, id: nat, h: u32, was: bool, kept: bool, dropped: Reply)
    requires Inv(before) && before.channel != 0 && !before.reopen && !before.closed
    requires before.next <= id && was == before.untracked
    requires d == before.(usable := d.usable, reopen := d.reopen, untracked := true, next := id + 1,
                          adapter := before.adapter.(periodic := before.adapter.periodic + {h}))
    ensures Inv(RecordPeriodic(d, id, h, was, kept, dropped).d)
  {
    hide OnChannel, Code, Effective, Inv, PeriodicHandles;
    InvBooked(before);
    if kept {
      HandlesAdd(before.periodics, id, h);
      PeriodicsKeep(before, d.(periodics := d.periodics[id := h], untracked := was));
    } else {
      DropKeeps(before, d, id, h, was, dropped);
    }
  }

  lemma DropKeeps(before: Device, d: Device, id: nat, h: u32, was: bool, dropped: Reply)
    requires Inv(before) && before.channel != 0 && !before.reopen && !before.closed
    requires before.next <= id && was == before.untracked
    requires d == before.(usable := d.usable, reopen := d.reopen, untracked := true, next := id + 1,
                          adapter := before.adapter.(periodic := before.adapter.periodic + {h}))
    ensures Inv(RecordPeriodic(d, id, h, was, false, dropped).d)
  {
    hide OnChannel, Code, Effective, Inv, PeriodicHandles;
    InvBooked(before);
    CommandOutcome(d, Drop(TABLE_PERIODIC, h), dropped);
    PeriodicsKeep(before, RecordPeriodic(d, id, h, was, false, dropped).d);
  }

  lemma InvBooked(d: Device)
    requires Inv(d)
    ensures Booked(d) && (!d.closed && d.channel != 0 ==> Held(d))
  {
  }

  // A change confined to the periodic side keeps everything if it keeps the handles.
  lemma PeriodicsKeep(d: Device, e: Device)
    requires Inv(d) && d.channel != 0 && (d.reopen ==> e.reopen)
    requires e == d.(usable := e.usable, reopen := e.reopen, periodics := e.periodics, untracked := e.untracked,
                     next := e.next, adapter := d.adapter.(periodic := e.adapter.periodic))
    requires d.next <= e.next && Held(e) && forall id :: id in e.periodics ==> id < e.next
    ensures Inv(e)
  {
    hide Tracked, OneEntryEach, PeriodicHandles;
  }

  lemma StopPeriodicKeeps(d: Device, channel: nat, id: nat, r: Reply)
    requires Inv(d)
    ensures Inv(StopPeriodic(d, channel, id, r).d)
  {
    hide OnChannel, Code, Effective, Tracked, OneEntryEach, PeriodicHandles;
    if Locked(d, channel) == 0 && id in d.periodics {
      CommandOutcome(d, Drop(TABLE_PERIODIC, d.periodics[id]), r);
      HandlesDrop(d.periodics, id);
    }
  }

  lemma ClearPeriodicsKeeps(d: Device, channel: nat, r: Reply)
    requires Inv(d)
    ensures Inv(ClearPeriodics(d, channel, r).d)
  {
    hide OnChannel, Code, Effective, Tracked, OneEntryEach;
    CommandOutcome(d, Clear(TABLE_PERIODIC), r);
  }

  lemma PlainKeeps(d: Device, channel: nat, r: Reply)
    requires Inv(d)
    ensures Inv(PlainCommand(d, channel, r).d)
  {
    hide OnChannel, Code, Effective, Tracked, OneEntryEach;
    CommandOutcome(d, Plain, r);
  }

  lemma {:induction false} ClearFromKeeps(d: Device, table: nat, replies: seq<Reply>)
    requires Inv(d) && !d.closed && d.channel != 0 && !d.reopen && |replies| == 3 && table <= 3
    ensures Inv(ClearFrom(d, table, replies).d)
    decreases 3 - table
  {
    hide OnChannel, Code, Effective, Tracked, OneEntryEach, PeriodicHandles;
    if table < 3 {
      if InTable(d.filters, table) == {} {
        ClearFromKeeps(d, table + 1, replies);
      } else {
        CommandOutcome(d, Clear(table), replies[table]);
        if Code(d, replies[table]) == 0 {
          var e := OnChannel(d, Clear(table), replies[table]);
          TrackedClear(d.filters, table);
          ClearFromKeeps(e.(filters := e.filters - InTable(e.filters, table)), table + 1, replies);
        }
      }
    }
  }

  // Every operation, whatever the adapter answers and wherever it is cut short, keeps the two sides in step.
  lemma DoKeeps(d: Device, op: Op)
    requires Inv(d) && Grants(d, op)
    ensures Inv(Do(d, op).d)
  {
    hide Connect, Disconnect, Close, StartFilter, StopFilter, ClearFrom, StartPeriodic, StopPeriodic, ClearPeriodics,
         PlainCommand, Tracked, OneEntryEach, PeriodicHandles;
    match op
    case OConnect(p, f, b, skip, r6, r12, stored, r7) => ConnectKeeps(d, p, f, b, skip, r6, r12, stored, r7);
    case ODisconnect(ch, c, s) => DisconnectKeeps(d, ch, c, s);
    case OClose(c, s, f) => CloseKeeps(d, c, s, f);
    case OStartFilter(ch, kind, flow, enc, skip, a, kept, r) =>
      StartFilterKeeps(d, ch, kind, flow, enc, skip, a, kept, r);
    case OStopFilter(ch, id, r) => StopFilterKeeps(d, ch, id, r);
    case OClearFilters(ch, p, b, f) => if Locked(d, ch) == 0 { ClearFromKeeps(d, TABLE_PASS, [p, b, f]); }
    case OStartPeriodic(ch, enc, skip, a, kept, r) => StartPeriodicKeeps(d, ch, enc, skip, a, kept, r);
    case OStopPeriodic(ch, id, r) => StopPeriodicKeeps(d, ch, id, r);
    case OClearPeriodics(ch, r) => ClearPeriodicsKeeps(d, ch, r);
    case OPlain(ch, r) => PlainKeeps(d, ch, r);
    case OSessionFails =>
  }

  lemma {:induction false} RunKeeps(d: Device, ops: seq<Op>)
    requires Inv(d) && AllGrant(d, ops)
    ensures Inv(RunOps(d, ops))
    decreases |ops|
  {
    hide Do, Inv, Grants;
    if ops != [] {
      DoKeeps(d, ops[0]);
      RunKeeps(Do(d, ops[0]).d, ops[1..]);
    }
  }

  // In every reachable state with an open channel, and whatever state the adapter was found in: either the device
  // must be reopened, or the filters the host tracks are exactly the entries of the adapter's tables 0, 1 and 2,
  // one public ID to an entry; and every periodic entry is held, suspected, or was found there.
  lemma FiltersAgree(next: nat, found: Adapter, ops: seq<Op>)
    requires next > 0 && AllGrant(JustOpened(next, found), ops)
    ensures var d := RunOps(JustOpened(next, found), ops);
            && (d.channel != 0 ==> d.reopen || (Tracked(d.filters) == d.adapter.filters && OneEntryEach(d.filters)))
            && (d.channel != 0 ==>
                  d.untracked || d.adapter.periodic <= PeriodicHandles(d.periodics) + found.periodic)
            && (d.channel != 0 && !d.reopen ==> d.adapter.open)
            && (!found.open && !d.closed && !d.reopen ==> (d.channel != 0 <==> d.adapter.open))
  {
    hide Do, Tracked, OneEntryEach, PeriodicHandles, AllGrant, RunOps;
    StartsWell(next, found);
    RunKeeps(JustOpened(next, found), ops);
    FoundStays(JustOpened(next, found), ops);
  }

  lemma {:induction false} FoundStays(d: Device, ops: seq<Op>)
    ensures RunOps(d, ops).found == d.found
    decreases |ops|
  {
    hide Do;
    if ops != [] {
      DoLeavesFound(d, ops[0]);
      FoundStays(Do(d, ops[0]).d, ops[1..]);
    }
  }

  lemma DoLeavesFound(d: Device, op: Op)
    ensures Do(d, op).d.found == d.found
  {
    hide Connect, Disconnect, Close;
    match op
    case OConnect(p, f, b, skip, r6, r12, stored, r7) => ConnectLeavesFound(d, p, f, b, skip, r6, r12, stored, r7);
    case ODisconnect(ch, c, s) => DisconnectLeavesFound(d, ch, c, s);
    case OClose(c, s, f) => CloseShape(d, c, s, f);
    case _ => ChannelStays(d, op);
  }

  lemma ConnectLeavesFound(d: Device, protocol: u32, flags: u32, baud: u32, skip: nat,
                           opening: Reply, setUp: Reply, stored: bool, undone: Reply)
    ensures Connect(d, protocol, flags, baud, skip, opening, setUp, stored, undone).d.found == d.found
  {
    hide OnChannel, Code, Effective, ConnectRefusal;
    CommandsStay();
    if ConnectRefusal(d, protocol, flags, baud) == 0 { RefusalCovers(d, protocol, flags, baud); }
  }

  lemma DisconnectLeavesFound(d: Device, channel: nat, cleared: Reply, shut: Reply)
    ensures Disconnect(d, channel, cleared, shut).d.found == d.found
  {
    hide OnChannel, Code, Effective;
    CommandsStay();
  }

  // Close closes the device for good.
  lemma CloseShape(d: Device, cleared: Reply, shut: Reply, farewell: Reply)
    ensures var e := Close(d, cleared, shut, farewell).d;
            e.closed && e.found == d.found
  {
    hide ClearPeriodicTable, CloseWire, Code, Send;
    var d1 := Retire(d.(closed := true));
    ClearOutcome(d1, cleared);
    var d2 := if d.wireOpen && HadPeriodic(d) then ClearPeriodicTable(d1, cleared) else d1;
    CloseWireShape(d2, shut);
    SendOutcome(CloseWire(d2, shut), CloseDevice, farewell);
  }

  // Only a Disconnect or a Close takes the channel away.
  lemma ChannelStays(d: Device, op: Op)
    requires !op.ODisconnect? && !op.OClose? && !op.OConnect?
    ensures Stays(d, Do(d, op).d)
  {
    hide OnChannel, Code, Effective, ClearFrom, AddFilter, AddPeriodic;
    match op
    case OClearFilters(ch, p, b, f) => ClearFromStays(d, TABLE_PASS, [p, b, f]);
    case OStartFilter(ch, kind, flow, enc, skip, added, kept, r) =>
      FilterStays(Took(d, d.next + skip), d.next + skip, TableFor(d, kind), added, kept, r);
    case OStartPeriodic(ch, enc, skip, added, kept, r) =>
      PeriodicStays(Took(d, d.next + skip), d.next + skip, added, kept, r);
    case OStopFilter(_, _, _) => CommandsStay();
    case OStopPeriodic(_, _, _) => CommandsStay();
    case OClearPeriodics(_, _) => CommandsStay();
    case OPlain(_, _) => CommandsStay();
    case OSessionFails =>
  }

  predicate Stays(d: Device, e: Device) {
    e.closed == d.closed && e.channel == d.channel && e.found == d.found
  }

  lemma FilterStays(d: Device, id: nat, table: nat, added: Reply, kept: bool, dropped: Reply)
    ensures Stays(d, AddFilter(d, id, table, added, kept, dropped).d)
  {
    hide OnChannel, Code, Effective;
    CommandOutcome(d, Add(table), added);
    if Code(d, added) == 0 { CommandShape(OnChannel(d, Add(table), added), Drop(table, added.handle), dropped); }
  }

  lemma PeriodicStays(d: Device, id: nat, added: Reply, kept: bool, dropped: Reply)
    ensures Stays(d, AddPeriodic(d, id, added, kept, dropped).d)
  {
    hide OnChannel, Accepted, Effective;
    CommandsStay();
    AcceptedIsAnswer(Effective(d.(untracked := true), added));
  }

  lemma CommandsStay()
    ensures forall d, c, r :: Stays(d, OnChannel(d, c, r))
  {
    forall d: Device, c, r ensures Stays(d, OnChannel(d, c, r)) {
      CommandShape(d, c, r);
    }
  }

  lemma {:induction false} ClearFromStays(d: Device, table: nat, replies: seq<Reply>)
    requires |replies| == 3 && table <= 3
    ensures Stays(d, ClearFrom(d, table, replies).d)
    decreases 3 - table
  {
    hide OnChannel, Code, InTable;
    if table < 3 {
      CommandShape(d, Clear(table), replies[table]);
      var e := OnChannel(d, Clear(table), replies[table]);
      ClearFromStays(d, table + 1, replies);
      ClearFromStays(e.(filters := e.filters - InTable(e.filters, table)), table + 1, replies);
    }
  }
}
