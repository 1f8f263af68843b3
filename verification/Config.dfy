// src/config.cpp: where each configuration parameter lives and what it may be set to.
module Config {
  import opened Bytes
  import Can
  import S = Session

  const ERR_NOT_SUPPORTED := 1
  const ERR_INVALID_IOCTL_VALUE := 5

  const DATA_RATE: u32 := 0x01
  const LOOPBACK: u32 := 0x03
  const J1962_PINS: u32 := 0x8001

  // host: the value stays on this side; otherwise the adapter keeps it under the selector.
  datatype Route = Route(host: bool, selector: u32, settable: bool, minimum: u32, maximum: u32, allowFfff: bool)

  datatype Entry = Entry(parameter: u32, route: Route)

  function Firmware(selector: u32, low: u32, high: u32): Route {
    Route(false, selector, true, low, high, false)
  }

  function FirmwareOrNone(selector: u32, low: u32, high: u32): Route {
    Route(false, selector, true, low, high, true)
  }

  function ReadOnly(selector: u32): Route {
    Route(false, selector, false, 0, 0xffff_ffff, false)
  }

  const HOST_LOOPBACK := Route(true, 0, true, 0, 1, false)

  const CAN_TABLE: seq<Entry> := [
    Entry(DATA_RATE, Firmware(0x04, 1, 1000000)),
    Entry(LOOPBACK, HOST_LOOPBACK),
    Entry(0x17, Firmware(0x14, 68, 80)),
    Entry(0x18, Firmware(0x15, 0, 100)),
    Entry(0x10008, ReadOnly(0x31))
  ]

  const ISO_TABLE: seq<Entry> := [
    Entry(DATA_RATE, Firmware(0x04, 1, 1000000)),
    Entry(LOOPBACK, HOST_LOOPBACK),
    Entry(0x17, Firmware(0x14, 80, 80)),
    Entry(0x18, Firmware(0x15, 0, 100)),
    Entry(0x1e, Firmware(0x1b, 0, 0xff)),
    Entry(0x1f, Firmware(0x1c, 0, 0xff)),
    Entry(0x22, FirmwareOrNone(0x1d, 0, 0xff)),
    Entry(0x23, FirmwareOrNone(0x1e, 0, 0xff)),
    Entry(0x25, Firmware(0x21, 0, 0xff)),
    Entry(0x2a, Firmware(0x26, 0, 0xffff)),
    Entry(0x2b, Firmware(0x22, 0, 0xff)),
    Entry(0x10000001, Firmware(0x22, 0, 0xff)),
    Entry(0x2c, Firmware(0x23, 1, 0xffff)),
    Entry(0x2d, Firmware(0x24, 1, 0xffff)),
    Entry(0x2e, Firmware(0x25, 1, 0xffff)),
    Entry(0x2f, Firmware(0x28, 1, 0xffff)),
    Entry(0x30, Firmware(0x27, 0, 0xffff)),
    Entry(0x10008, ReadOnly(0x31)),
    Entry(0x10000007, ReadOnly(0x2c))
  ]

  const SUPPORTED_RATES: seq<u32> := [
    33300, 33333, 50000, 62500, 83300, 83333, 95200, 95238, 100000, 125000, 166666, 166667, 200000,
    250000, 500000, 666666, 666667, 1000000
  ]

  datatype Lookup = Found(route: Route) | Failed(code: int)

  // The first entry for the parameter.
  function Find(table: seq<Entry>, parameter: u32): Option<Route> {
    if table == [] then None
    else if table[0].parameter == parameter then Some(table[0].route)
    else Find(table[1..], parameter)
  }

  function RouteOf(protocol: u16, parameter: u32): Lookup {
    if protocol != Can.CAN && protocol != Can.ISO15765 then Failed(ERR_NOT_SUPPORTED)
    else if parameter == J1962_PINS then Failed(S.ERR_FAILED)
    else
      match Find(if protocol == Can.CAN then CAN_TABLE else ISO_TABLE, parameter)
      case Some(route) => Found(route)
      case None => Failed(ERR_NOT_SUPPORTED)
  }

  predicate BaudSupported(rate: u32) {
    rate in SUPPORTED_RATES
  }

  // 0 when the value may be set; otherwise the error.
  function ValidateSet(protocol: u16, parameter: u32, value: u32): int {
    match RouteOf(protocol, parameter)
    case Failed(code) => code
    case Found(route) =>
      if !route.settable then ERR_NOT_SUPPORTED
      else if parameter == DATA_RATE && !BaudSupported(value) then ERR_INVALID_IOCTL_VALUE
      else if route.allowFfff && value == 0xffff then 0
      else if value < route.minimum || value > route.maximum then ERR_INVALID_IOCTL_VALUE
      else 0
  }

  lemma {:induction false} FindEntry(table: seq<Entry>, parameter: u32)
    ensures Find(table, parameter).Some? ==> Entry(parameter, Find(table, parameter).value) in table
    ensures Find(table, parameter).None? ==> forall e :: e in table ==> e.parameter != parameter
  {
    if table != [] { FindEntry(table[1..], parameter); }
  }

  function TableOf(protocol: u16): seq<Entry> {
    if protocol == Can.CAN then CAN_TABLE else ISO_TABLE
  }

  ghost predicate OnceEach(table: seq<Entry>) {
    forall i, j :: 0 <= i < j < |table| ==> table[i].parameter != table[j].parameter
  }

  const PAD_VALUE: u32 := 0x2b
  const DT_PAD_BYTE: u32 := 0x10000001

  // Two adapter-side entries under one selector are the two names of the padding octet.
  ghost predicate OnlyPadShared(table: seq<Entry>) {
    forall i, j :: 0 <= i < j < |table| && !table[i].route.host && !table[j].route.host
                   && table[i].route.selector == table[j].route.selector ==>
                     table[i].parameter == PAD_VALUE && table[j].parameter == DT_PAD_BYTE
  }

  lemma TablesOnce()
    ensures OnceEach(CAN_TABLE)
    ensures OnceEach(ISO_TABLE)
  {
    hide Find;
  }

  lemma TablesShare()
    ensures OnlyPadShared(CAN_TABLE)
    ensures OnlyPadShared(ISO_TABLE)
  {
    hide Find;
  }

  // Neither table names the parameter that is refused before the lookup.
  lemma TablesNameNoPins()
    ensures forall e :: e in CAN_TABLE ==> e.parameter != J1962_PINS
    ensures forall e :: e in ISO_TABLE ==> e.parameter != J1962_PINS
  {
    hide Find;
  }

  // The lookup of the first entry finds the only one: a parameter has a route exactly when the channel's table
  // has that entry.
  lemma RouteIsTheEntry(protocol: u16, parameter: u32, route: Route)
    requires protocol == Can.CAN || protocol == Can.ISO15765
    ensures RouteOf(protocol, parameter) == Found(route) <==> Entry(parameter, route) in TableOf(protocol)
  {
    hide Find, CAN_TABLE, ISO_TABLE;
    TablesOnce();
    TablesNameNoPins();
    var table := TableOf(protocol);
    FindEntry(table, parameter);
    if Entry(parameter, route) in table {
      var i :| 0 <= i < |table| && table[i] == Entry(parameter, route);
      var found := Entry(parameter, Find(table, parameter).value);
      var j :| 0 <= j < |table| && table[j] == found;
      assert i == j;
    }
  }

  // Writing one parameter overwrites another only if they are the two names of the padding octet.
  lemma OnlyPadIsShared(protocol: u16, p: u32, q: u32)
    requires p != q && RouteOf(protocol, p).Found? && RouteOf(protocol, q).Found?
    requires var a, b := RouteOf(protocol, p).route, RouteOf(protocol, q).route;
             !a.host && !b.host && a.selector == b.selector
    ensures protocol == Can.ISO15765 && {p, q} == {PAD_VALUE, DT_PAD_BYTE}
  {
    hide Find, CAN_TABLE, ISO_TABLE;
    TablesShare();
    CanSharesNothing();
    var table := TableOf(protocol);
    FindEntry(table, p);
    FindEntry(table, q);
    var i :| 0 <= i < |table| && table[i] == Entry(p, RouteOf(protocol, p).route);
    var j :| 0 <= j < |table| && table[j] == Entry(q, RouteOf(protocol, q).route);
    assert i < j || j < i;
  }

  lemma CanSharesNothing()
    ensures forall e :: e in CAN_TABLE ==> e.parameter != PAD_VALUE
  {
    hide Find;
  }

  // The rates Connect takes and the rates a SET_CONFIG takes are the same ones.
  lemma RatesAgree(protocol: u16, rate: u32)
    requires protocol == Can.CAN || protocol == Can.ISO15765
    ensures ValidateSet(protocol, DATA_RATE, rate) == 0 <==> BaudSupported(rate)
  {
    var table := if protocol == Can.CAN then CAN_TABLE else ISO_TABLE;
    assert table[0] == Entry(DATA_RATE, Firmware(0x04, 1, 1000000));
    assert Find(table, DATA_RATE) == Some(Firmware(0x04, 1, 1000000));
    assert forall r :: r in SUPPORTED_RATES ==> 1 <= r <= 1000000;
  }

  ghost predicate OnlyLoopbackHost(table: seq<Entry>) {
    forall e :: e in table ==> (e.route.host <==> e.parameter == LOOPBACK)
  }

  lemma TablesLoopback()
    ensures OnlyLoopbackHost(CAN_TABLE)
    ensures OnlyLoopbackHost(ISO_TABLE)
  {
    hide RouteOf, Find;
  }

  // The loopback value never leaves the host; everything else a set may touch goes to the adapter.
  lemma OnlyLoopbackIsHosts(protocol: u16, parameter: u32)
    requires RouteOf(protocol, parameter).Found?
    ensures RouteOf(protocol, parameter).route.host <==> parameter == LOOPBACK
  {
    hide Find, CAN_TABLE, ISO_TABLE;
    var table := TableOf(protocol);
    FindEntry(table, parameter);
    TablesLoopback();
  }

  // What a channel of each kind lets its user set, parameter by parameter.
  predicate Accepts(protocol: u16, parameter: u32, value: u32) {
    if protocol == 5 then
      || (parameter == 1 && value in SUPPORTED_RATES)
      || (parameter == 3 && value <= 1)
      || (parameter == 0x17 && 68 <= value <= 80)
      || (parameter == 0x18 && value <= 100)
    else if protocol == 6 then
      || (parameter == 1 && value in SUPPORTED_RATES)
      || (parameter == 3 && value <= 1)
      || (parameter == 0x17 && value == 80)
      || (parameter == 0x18 && value <= 100)
      || (parameter in {0x1e, 0x1f, 0x25, 0x2b, 0x10000001} && value <= 0xff)
      || (parameter in {0x22, 0x23} && (value <= 0xff || value == 0xffff))
      || (parameter in {0x2a, 0x30} && value <= 0xffff)
      || (parameter in {0x2c, 0x2d, 0x2e, 0x2f} && 1 <= value <= 0xffff)
    else false
  }

  // What the entry of a parameter lets through.
  predicate EntryAccepts(e: Entry, value: u32) {
    && e.route.settable && (e.parameter == DATA_RATE ==> BaudSupported(value))
    && (e.route.minimum <= value <= e.route.maximum || (e.route.allowFfff && value == 0xffff))
  }

  lemma CanAccepts(value: u32)
    ensures forall e :: e in CAN_TABLE ==> (EntryAccepts(e, value) <==> Accepts(5, e.parameter, value))
  {
    hide Find, SUPPORTED_RATES;
    RatesInRange();
  }

  lemma IsoAccepts(value: u32)
    ensures forall e :: e in ISO_TABLE ==> (EntryAccepts(e, value) <==> Accepts(6, e.parameter, value))
  {
    hide Find, SUPPORTED_RATES;
    RatesInRange();
  }

  // No entry's range is empty.
  lemma RangesMeet()
    ensures forall e :: e in CAN_TABLE ==> e.route.minimum <= e.route.maximum
    ensures forall e :: e in ISO_TABLE ==> e.route.minimum <= e.route.maximum
  {
    hide Find, SUPPORTED_RATES;
  }

  lemma CanListed(parameter: u32, value: u32)
    requires Accepts(5, parameter, value)
    ensures exists e :: e in CAN_TABLE && e.parameter == parameter
  {
    hide Find, SUPPORTED_RATES;
    assert CAN_TABLE[0].parameter == 1 && CAN_TABLE[1].parameter == 3;
    assert CAN_TABLE[2].parameter == 0x17 && CAN_TABLE[3].parameter == 0x18;
  }

  lemma IsoListed(parameter: u32, value: u32)
    requires Accepts(6, parameter, value)
    ensures exists e :: e in ISO_TABLE && e.parameter == parameter
  {
    hide Find, SUPPORTED_RATES;
    var i: nat := match parameter
      case 1 => 0
      case 3 => 1
      case 0x17 => 2
      case 0x18 => 3
      case 0x1e => 4
      case 0x1f => 5
      case 0x22 => 6
      case 0x23 => 7
      case 0x25 => 8
      case 0x2a => 9
      case 0x2b => 10
      case 0x10000001 => 11
      case 0x2c => 12
      case 0x2d => 13
      case 0x2e => 14
      case 0x2f => 15
      case _ => 16;
    assert ISO_TABLE[i] in ISO_TABLE && ISO_TABLE[i].parameter == parameter;
  }

  // The check lets through exactly those. Any other value of a parameter that can be set is an invalid value; any
  // other parameter is not supported, or refused outright.
  lemma SettableExactly(protocol: u16, parameter: u32, value: u32)
    ensures ValidateSet(protocol, parameter, value) == 0 <==> Accepts(protocol, parameter, value)
    ensures ValidateSet(protocol, parameter, value) in {0, 1, 5, 7}
    ensures ValidateSet(protocol, parameter, value) == 5 <==>
              && !Accepts(protocol, parameter, value)
              && exists v :: Accepts(protocol, parameter, v)
  {
    hide Find, CAN_TABLE, ISO_TABLE, SUPPORTED_RATES, Accepts;
    if protocol == Can.CAN || protocol == Can.ISO15765 {
      AcceptsByEntry(protocol, parameter, value);
      forall v | Accepts(protocol, parameter, v)
        ensures RouteOf(protocol, parameter).Found? && RouteOf(protocol, parameter).route.settable
      {
        AcceptsByEntry(protocol, parameter, v);
      }
      var l := RouteOf(protocol, parameter);
      if l.Found? && l.route.settable { SettableHasValue(protocol, parameter); }
    } else {
      NothingElsewhere(protocol, parameter);
    }
  }

  lemma NothingElsewhere(protocol: u16, parameter: u32)
    requires protocol != 5 && protocol != 6
    ensures forall v :: !Accepts(protocol, parameter, v)
  {
  }

  lemma AcceptsByEntry(protocol: u16, parameter: u32, value: u32)
    requires protocol == 5 || protocol == 6
    ensures var l := RouteOf(protocol, parameter);
            Accepts(protocol, parameter, value) <==> l.Found? && EntryAccepts(Entry(parameter, l.route), value)
  {
    hide Find, CAN_TABLE, ISO_TABLE, SUPPORTED_RATES, Accepts, EntryAccepts;
    var table := TableOf(protocol);
    CanAccepts(value);
    IsoAccepts(value);
    FindEntry(table, parameter);
    TablesNameNoPins();
    if Accepts(protocol, parameter, value) {
      if protocol == 5 { CanListed(parameter, value); } else { IsoListed(parameter, value); }
    }
  }

  lemma SettableHasValue(protocol: u16, parameter: u32)
    requires protocol == 5 || protocol == 6
    requires RouteOf(protocol, parameter).Found? && RouteOf(protocol, parameter).route.settable
    ensures exists v :: Accepts(protocol, parameter, v)
  {
    hide Find, CAN_TABLE, ISO_TABLE;
    FindEntry(TableOf(protocol), parameter);
    RangesMeet();
    var route := RouteOf(protocol, parameter).route;
    if parameter == DATA_RATE {
      assert SUPPORTED_RATES[0] == 33300;
      assert Accepts(protocol, parameter, 33300);
    } else {
      AcceptsByEntry(protocol, parameter, route.maximum);
      assert Accepts(protocol, parameter, route.maximum);
    }
  }

  lemma RatesInRange()
    ensures forall r :: r in SUPPORTED_RATES ==> 1 <= r <= 1000000
  {
  }

  const RATE_SELECTOR: u32 := 0x04

  ghost predicate OnlyRatesThere(table: seq<Entry>) {
    forall e :: e in table && !e.route.host ==> (e.route.selector == RATE_SELECTOR <==> e.parameter == DATA_RATE)
  }

  lemma TablesRates()
    ensures OnlyRatesThere(CAN_TABLE)
    ensures OnlyRatesThere(ISO_TABLE)
  {
    hide RouteOf, Find;
  }

  // No other parameter shares the bit rate's selector.
  lemma SelectorIsRates(protocol: u16, parameter: u32)
    requires RouteOf(protocol, parameter).Found? && !RouteOf(protocol, parameter).route.host
    ensures RouteOf(protocol, parameter).route.selector == RATE_SELECTOR <==> parameter == DATA_RATE
  {
    hide Find, CAN_TABLE, ISO_TABLE;
    var table := TableOf(protocol);
    FindEntry(table, parameter);
    TablesRates();
  }
}
