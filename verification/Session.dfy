// src/session.cpp: one command at a time over a byte stream that also carries data and indications. Every
// function here is one critical section under the state lock.
module Session {
  import opened Bytes
  import Codec
  import Can

  // receiver: the channel's receiver, if one is set.
  // used: the time each held sequence number was taken, in milliseconds.
  datatype Sess = Sess(
    buffer: Bytes, receiver: Option<Can.World>, response: Option<Bytes>, failed: bool,
    sequence: nat, pending: nat, source: u16, minimum: nat, closing: bool, stopped: bool, used: map<nat, nat>)

  const INITIAL := Sess([], None, None, false, 0, 0, Codec.BOARD_NODE, 20, false, false, map[])

  const QUARANTINE := 10000

  // Error codes of include/mongoose/j2534.h that this layer raises.
  const ERR_INVALID_CHANNEL_ID := 2
  const ERR_FAILED := 7
  const ERR_DEVICE_NOT_CONNECTED := 8
  const ERR_TIMEOUT := 9
  const ERR_EXCEEDED_LIMIT := 12

  predicate ResponseOpcode(op: u16) {
    || op == 1 || (0x8003 <= op <= 0x8008 && op != 0x8004)
    || 0x800b <= op <= 0x800e || 0x8010 <= op <= 0x8015
    || op == 0x8100 || op == 0x8102 || op == 0x8103
    || 0x8109 <= op <= 0x810c || op == 0x8111 || op == 0x8112
  }

  predicate Usable(s: Sess) {
    !s.closing && !s.failed
  }

  ghost predicate Valid(s: Sess) {
    && Codec.Settled(s.buffer) && |s.buffer| <= Codec.MAX_BODY + 3
    && (s.minimum == 12 || s.minimum == 20)
    && s.sequence <= 255
    && (s.receiver.Some? ==> Can.Inv(s.receiver.value))
  }

  // ---------------------------------------------------------------- the reader thread

  predicate Answers(s: Sess, body: Bytes)
    requires s.minimum >= 8
  {
    && s.pending != 0 && s.response.None? && |body| >= s.minimum
    && ResponseOpcode(Le16(body, 4)) && Le16(body, 0) == 0
    && Le16(body, 2) == s.source && Le16(body, 6) == s.pending
  }

  ghost predicate Shaped(s: Sess) {
    s.minimum >= 8 && (s.receiver.Some? ==> |s.receiver.value.log.open| == |s.receiver.value.rx.pending|)
  }

  function Told(r: Option<Can.World>, e: Can.Event): Option<Can.World>
    requires r.Some? ==> |r.value.log.open| == |r.value.rx.pending|
  {
    if r.Some? then Some(Can.Step(r.value, e)) else None
  }

  function Deliver(s: Sess, body: Bytes): (s': Sess)
    requires Shaped(s)
    ensures Shaped(s')
  {
    s.(receiver := Told(s.receiver, Can.EReceive(body)), response := if Answers(s, body) then Some(body) else s.response)
  }

  function DeliverAll(s: Sess, bodies: seq<Bytes>): (s': Sess)
    requires Shaped(s)
    ensures Shaped(s')
    decreases |bodies|
  {
    if bodies == [] then s else DeliverAll(Deliver(s, bodies[0]), bodies[1..])
  }

  function Receive(s: Sess, bytes: Bytes): (s': Sess)
    requires Shaped(s)
    ensures Shaped(s')
  {
    var p := Codec.Deframe(s.buffer + bytes);
    DeliverAll(s.(buffer := p.rest), p.frames)
  }

  // An empty reason does not count as a failure.
  function Failed(s: Sess, reason: string): (s': Sess)
    requires Shaped(s)
    ensures Shaped(s')
  {
    s.(failed := s.failed || reason != "", receiver := Told(s.receiver, Can.EStop(ERR_DEVICE_NOT_CONNECTED)))
  }

  // ---------------------------------------------------------------- the commanding thread

  predicate Free(s: Sess, sequence: nat, now: nat) {
    sequence !in s.used || now - s.used[sequence] >= QUARANTINE
  }

  // The allocation loop, with `tries` turns left: the sequence it stops at, and whether that one is free.
  function Probe(s: Sess, sequence: nat, now: nat, tries: nat): (nat, bool)
    decreases tries
  {
    if tries == 0 then (sequence, false)
    else
      var next := sequence % 255 + 1;
      if Free(s, next, now) then (next, true) else Probe(s, next, now, tries - 1)
  }

  // The k-th number the loop chooses when the first one it tries is always free.
  function Rotation(k: nat): nat {
    if k == 0 then 0 else (k - 1) % 255 + 1
  }

  lemma NextResidue(m: nat)
    ensures (m + 1) % 255 == if m % 255 == 254 then 0 else m % 255 + 1
  {
    var q, r := m / 255, m % 255;
    assert m == 255 * q + r;
    if r == 254 { assert m + 1 == 255 * (q + 1); } else { assert m + 1 == 255 * q + (r + 1); }
  }

  lemma {:induction false} ProbeRange(s: Sess, sequence: nat, now: nat, tries: nat)
    ensures var p := Probe(s, sequence, now, tries); (tries > 0 || sequence <= 255 ==> p.0 <= 255) && (p.1 ==> 1 <= p.0)
    decreases tries
  {
    if tries > 0 { ProbeRange(s, sequence % 255 + 1, now, tries - 1); }
  }

  datatype Call = Call(opcode: u16, payload: Bytes, destination: u16, chan: u16)

  predicate Sendable(call: Call) {
    |call.payload| <= Codec.MAX_BODY - 12 && call.destination != 0
  }

  datatype Begun =
    | Refused(s: Sess, code: int)
    | Ready(s: Sess, sequence: nat, wire: Bytes)

  function Begin(s: Sess, now: nat, call: Call): Begun {
    if s.closing || s.failed then Refused(s, ERR_DEVICE_NOT_CONNECTED)
    else
      ProbeRange(s, s.sequence, now, 255);
      var (sequence, available) := Probe(s, s.sequence, now, 255);
      var s1 := s.(sequence := sequence);
      if !available then Refused(s1, ERR_EXCEEDED_LIMIT)
      else if !Sendable(call) then Refused(s1, ERR_FAILED)
      else
        Ready(s1.(source := call.destination, pending := sequence, minimum := if call.opcode == 0x100 then 12 else 20,
                  response := None, used := s.used[sequence := now]),
              sequence,
              Codec.Encode(Codec.Request(call.opcode, sequence, call.payload, call.destination, call.chan)))
  }

  // Nothing has left the host: the sequence is free again.
  function Release(s: Sess, sequence: nat): Sess {
    s.(pending := 0, used := s.used - {sequence})
  }

  // The write failed, perhaps part way.
  function Poison(s: Sess): (s': Sess)
    requires Shaped(s)
    ensures Shaped(s')
  {
    s.(pending := 0, failed := true, receiver := Told(s.receiver, Can.EStop(ERR_DEVICE_NOT_CONNECTED)))
  }

  datatype Concluded = Concluded(s: Sess, body: Option<Bytes>, code: int)

  predicate Woken(s: Sess) {
    s.response.Some? || s.closing || s.failed
  }

  // The end of the wait; with nothing to wake for, it ended because the deadline passed.
  function Conclude(s: Sess, sequence: nat): Concluded
    requires Shaped(s)
  {
    if !Woken(s) then Concluded(Poison(s), None, ERR_TIMEOUT)
    else
      var s1 := s.(pending := 0, used := if s.response.Some? then s.used - {sequence} else s.used);
      if s.closing || s.failed then Concluded(s1, None, ERR_DEVICE_NOT_CONNECTED)
      else Concluded(s1, s.response, 0)
  }

  // ---------------------------------------------------------------- close and channels

  function CloseFirst(s: Sess): (s': Sess)
    requires Shaped(s)
    ensures Shaped(s')
  {
    if s.stopped then s
    else s.(closing := true, receiver := Told(s.receiver, Can.EStop(ERR_DEVICE_NOT_CONNECTED)))
  }

  function SetReceiver(s: Sess, r: Option<Can.World>): (s': Sess)
    requires Shaped(s) && (r.Some? ==> |r.value.log.open| == |r.value.rx.pending|)
    ensures Shaped(s')
  {
    s.(receiver := if s.closing || s.failed then Told(r, Can.EStop(ERR_DEVICE_NOT_CONNECTED)) else r)
  }

  // ---------------------------------------------------------------- what other threads do

  datatype Event =
    | Bytes(bytes: Bytes)
    | Fails(reason: string)
    | Closes
    | Installs(receiver: Option<Can.World>)
    | Touches(e: Can.Event)

  ghost predicate Proper(e: Event) {
    e.Installs? && e.receiver.Some? ==> Can.Inv(e.receiver.value)
  }

  function Step(s: Sess, e: Event): (s': Sess)
    requires Shaped(s) && Proper(e)
    ensures Shaped(s')
  {
    match e
    case Bytes(bytes) => Receive(s, bytes)
    case Fails(reason) => Failed(s, reason)
    case Closes => CloseFirst(s)
    case Installs(r) => SetReceiver(s, r)
    case Touches(e) => s.(receiver := Told(s.receiver, e))
  }

  function Run(s: Sess, events: seq<Event>): (s': Sess)
    requires Shaped(s) && forall e :: e in events ==> Proper(e)
    ensures Shaped(s')
    decreases |events|
  {
    if events == [] then s else Run(Step(s, events[0]), events[1..])
  }

  lemma ValidShaped(s: Sess)
    requires Valid(s)
    ensures Shaped(s)
  {
  }

  lemma ToldInv(r: Option<Can.World>, e: Can.Event)
    requires r.Some? ==> Can.Inv(r.value)
    ensures r.Some? ==> Can.Inv(Told(r, e).value)
  {
    if r.Some? { Can.StepInv(r.value, e); }
  }

  lemma {:induction false} DeliverAllValid(s: Sess, bodies: seq<Bytes>)
    requires Valid(s)
    ensures Valid(DeliverAll(s, bodies))
    ensures var v := DeliverAll(s, bodies);
            v == s.(receiver := v.receiver, response := v.response)
    decreases |bodies|
  {
    hide Can.Step, Can.Inv;
    if bodies != [] {
      ToldInv(s.receiver, Can.EReceive(bodies[0]));
      DeliverAllValid(Deliver(s, bodies[0]), bodies[1..]);
    }
  }

  lemma ReceiveValid(s: Sess, bytes: Bytes)
    requires Valid(s)
    ensures Valid(Receive(s, bytes))
    ensures var v := Receive(s, bytes);
            v == s.(buffer := Codec.Deframe(s.buffer + bytes).rest, receiver := v.receiver, response := v.response)
  {
    hide Codec.Deframe, DeliverAll;
    Codec.DeframeRest(s.buffer + bytes);
    var p := Codec.Deframe(s.buffer + bytes);
    DeliverAllValid(s.(buffer := p.rest), p.frames);
  }

  lemma StepValid(s: Sess, e: Event)
    requires Valid(s) && Proper(e)
    ensures Valid(Step(s, e))
  {
    hide Can.Step, Can.Inv, Receive;
    match e
    case Bytes(bytes) => ReceiveValid(s, bytes);
    case Fails(reason) => ToldInv(s.receiver, Can.EStop(ERR_DEVICE_NOT_CONNECTED));
    case Closes => ToldInv(s.receiver, Can.EStop(ERR_DEVICE_NOT_CONNECTED));
    case Installs(r) => ToldInv(r, Can.EStop(ERR_DEVICE_NOT_CONNECTED));
    case Touches(c) => ToldInv(s.receiver, c);
  }

  // Nothing another thread does makes a session usable again, takes or frees a sequence number, or changes
  // which response is being waited for.
  lemma StepKeeps(s: Sess, e: Event)
    requires Valid(s) && Proper(e)
    ensures var v := Step(s, e);
            && (Usable(v) ==> Usable(s))
            && v.sequence == s.sequence && v.used == s.used && v.pending == s.pending
            && v.source == s.source && v.minimum == s.minimum
            && (s.response.Some? ==> v.response == s.response)
            && (v.response != s.response ==> e.Bytes?)
  {
    hide Can.Step, Can.Inv;
    if e.Bytes? {
      ReceiveValid(s, e.bytes);
      ResponseStays(s.(buffer := Codec.Deframe(s.buffer + e.bytes).rest), Codec.Deframe(s.buffer + e.bytes).frames);
    }
  }

  lemma {:induction false} ResponseStays(s: Sess, bodies: seq<Bytes>)
    requires Shaped(s)
    ensures s.response.Some? ==> DeliverAll(s, bodies).response == s.response
    decreases |bodies|
  {
    hide Can.Step;
    if bodies != [] { ResponseStays(Deliver(s, bodies[0]), bodies[1..]); }
  }

  lemma {:induction false} RunKeeps(s: Sess, events: seq<Event>)
    requires Valid(s) && forall e :: e in events ==> Proper(e)
    ensures var v := Run(s, events);
            && Valid(v) && (Usable(v) ==> Usable(s))
            && v.sequence == s.sequence && v.used == s.used && v.pending == s.pending
    decreases |events|
  {
    hide Step;
    if events != [] {
      StepValid(s, events[0]);
      StepKeeps(s, events[0]);
      RunKeeps(Step(s, events[0]), events[1..]);
    }
  }

  // No frame is both a response and something the receiver acts on.
  lemma ResponsesAreNotData(s: Sess, body: Bytes, rx: Can.Rx)
    requires s.minimum >= 8 && Answers(s, body)
    ensures !Can.Addressed(rx, body)
  {
  }

  // ---------------------------------------------------------------- one whole command

  // What meets a command. slot: whether its turn came before the deadline. throws: whether the caller's
  // sequence callback throws. expired: whether the deadline passed before the write. The events are what other
  // threads do before the write, while it is in progress, and while the response is awaited.
  datatype Script = Script(slot: bool, throws: bool, early: seq<Event>, expired: bool,
                           sending: seq<Event>, sendOk: bool, waiting: seq<Event>)

  ghost predicate ProperScript(c: Script) {
    forall e :: e in c.early || e in c.sending || e in c.waiting ==> Proper(e)
  }

  // sent: the octets handed to the transport, if any. code 0 is success.
  datatype Outcome = Outcome(s: Sess, sent: Option<Bytes>, body: Option<Bytes>, code: int)

  function Command(s: Sess, now: nat, call: Call, c: Script): Outcome
    requires Shaped(s) && ProperScript(c)
  {
    if !c.slot then Outcome(s, None, None, ERR_TIMEOUT)
    else
      match Begin(s, now, call)
      case Refused(s1, code) => Outcome(s1, None, None, code)
      case Ready(s1, sequence, wire) =>
        var s2 := Run(s1, c.early);
        if c.throws then Outcome(Release(s2, sequence), None, None, ERR_FAILED)
        else if c.expired then Outcome(Release(s2, sequence), None, None, ERR_TIMEOUT)
        else
          var s3 := Run(s2, c.sending);
          if !c.sendOk then Outcome(Poison(s3), Some(wire), None, ERR_FAILED)
          else
            var end := Conclude(Run(s3, c.waiting), sequence);
            Outcome(end.s, Some(wire), end.body, end.code)
  }

  lemma BeginValid(s: Sess, now: nat, call: Call)
    requires Valid(s)
    ensures Valid(Begin(s, now, call).s)
    ensures Begin(s, now, call).Ready? ==> Usable(s) && Usable(Begin(s, now, call).s)
    ensures Begin(s, now, call).Refused? ==>
              Usable(Begin(s, now, call).s) == Usable(s) && Begin(s, now, call).s.used == s.used
  {
    hide Can.Inv;
    ProbeRange(s, s.sequence, now, 255);
  }

  lemma PoisonValid(s: Sess)
    requires Valid(s)
    ensures Valid(Poison(s)) && !Usable(Poison(s))
  {
    hide Can.Inv, Can.Step;
    ToldInv(s.receiver, Can.EStop(ERR_DEVICE_NOT_CONNECTED));
  }

  // A command gets a body only on a usable session; without one the session is finished.
  lemma ConcludeValid(s: Sess, sequence: nat)
    requires Valid(s)
    ensures var e := Conclude(s, sequence);
            && Valid(e.s) && (e.body.Some? <==> Usable(e.s)) && (e.body.None? <==> e.code != 0)
            && (e.body.Some? ==> Usable(s) && e.body == s.response && e.s.used == s.used - {sequence})
            && (e.s.used == s.used || e.s.used == s.used - {sequence})
            && e.s == s.(receiver := e.s.receiver, pending := 0, failed := e.s.failed, used := e.s.used)
  {
    hide Can.Inv;
    PoisonValid(s);
  }

  // After a failed command either nothing was handed to the transport or the session refuses every further
  // command; and a command that answers has written its request and left the session usable.
  lemma FailuresAreCertainOrFinal(s: Sess, now: nat, call: Call, c: Script)
    requires Valid(s) && ProperScript(c)
    ensures var o := Command(s, now, call, c);
            && Valid(o.s)
            && (o.body.None? && Usable(o.s) ==> o.sent.None?)
            && (o.body.Some? ==> o.sent.Some? && o.code == 0 && Usable(o.s))
            && (o.body.None? <==> o.code != 0)
  {
    hide Can.Inv, Run, Begin, Conclude, Poison;
    BeginValid(s, now, call);
    if c.slot && Begin(s, now, call).Ready? {
      var s1 := Begin(s, now, call).s;
      RunKeeps(s1, c.early);
      var s2 := Run(s1, c.early);
      if !c.throws && !c.expired {
        RunKeeps(s2, c.sending);
        var s3 := Run(s2, c.sending);
        PoisonValid(s3);
        RunKeeps(s3, c.waiting);
        ConcludeValid(Run(s3, c.waiting), Begin(s, now, call).sequence);
      }
    } else if c.slot {
      assert Begin(s, now, call).code != 0 by { RefusedCode(s, now, call); }
    }
  }

  predicate ReceiverStopped(s: Sess) {
    s.receiver.Some? ==> s.receiver.value.rx.stopped != 0
  }

  // A transport failure with a reason, an abandoned write, a close: the session is usable no more and its channel's
  // readers and writers are stopped. A channel connected to a session that is already lost is stopped at once; to a
  // usable one it is connected as it is.
  lemma LossStops(s: Sess, reason: string, r: Option<Can.World>)
    requires Valid(s) && (r.Some? ==> |r.value.log.open| == |r.value.rx.pending|)
    ensures reason != "" ==> !Usable(Failed(s, reason)) && ReceiverStopped(Failed(s, reason))
    ensures !Usable(Poison(s)) && ReceiverStopped(Poison(s))
    ensures !s.stopped ==> !Usable(CloseFirst(s)) && ReceiverStopped(CloseFirst(s))
    ensures !Usable(s) ==> ReceiverStopped(SetReceiver(s, r))
    ensures Usable(s) ==> SetReceiver(s, r) == s.(receiver := r)
  {
    hide Can.Inv;
  }

  // One frame and nothing else, carrying the call under a number: destination, source 0 (the host), opcode, number,
  // channel word, a zero word and the payload.
  predicate Carries(wire: Bytes, sequence: nat, call: Call) {
    var p := Codec.Deframe(wire);
    && |p.frames| == 1 && p.slides == 0 && p.rest == []
    && var body := p.frames[0];
    && |body| == 12 + |call.payload|
    && Le16(body, 0) == call.destination && Le16(body, 2) == 0 && Le16(body, 4) == call.opcode
    && Le16(body, 6) == sequence && Le16(body, 8) == call.chan && Le16(body, 10) == 0 && body[12..] == call.payload
  }

  // What a command is about to write carries its call under the number whose answer it will wait for, from the
  // destination it was sent to.
  lemma BeginWrites(s: Sess, now: nat, call: Call)
    requires Begin(s, now, call).Ready?
    ensures var b := Begin(s, now, call);
            && Carries(b.wire, b.s.pending, call) && b.sequence == b.s.pending && 1 <= b.sequence <= 255
            && b.s.source == call.destination && b.s.minimum == (if call.opcode == 0x100 then 12 else 20)
            && b.s.response == None
  {
    hide Codec.Deframe, Codec.Encode, Codec.Request, Codec.Build, Probe;
    ProbeRange(s, s.sequence, now, 255);
    Codec.RequestOnTheWire(call.opcode, Begin(s, now, call).sequence, call.payload, call.destination, call.chan);
  }

  // Whatever a command hands to the transport carries its call, under one number.
  lemma CommandWrites(s: Sess, now: nat, call: Call, c: Script)
    requires Shaped(s) && ProperScript(c)
    ensures var o := Command(s, now, call, c);
            o.sent.Some? ==> exists n :: 1 <= n <= 255 && Carries(o.sent.value, n, call)
  {
    hide Run, Begin, Conclude, Poison, Carries;
    if Begin(s, now, call).Ready? { BeginWrites(s, now, call); }
  }

  // The kinds of response, listed; every command the driver sends is answered by one of them: its own opcode with
  // the top bit set.
  lemma ResponsesListed(op: u16)
    ensures ResponseOpcode(op) <==>
              op in {1, 0x8003, 0x8005, 0x8006, 0x8007, 0x8008, 0x800b, 0x800c, 0x800d, 0x800e, 0x8010, 0x8011, 0x8012,
                     0x8013, 0x8014, 0x8015, 0x8100, 0x8102, 0x8103, 0x8109, 0x810a, 0x810b, 0x810c, 0x8111, 0x8112}
    ensures op in {3, 5, 6, 7, 8, 0xb, 0xc, 0xd, 0xe, 0x10, 0x11, 0x12, 0x103, 0x109} ==> ResponseOpcode(op + 0x8000)
  {
  }

  lemma RefusedCode(s: Sess, now: nat, call: Call)
    requires Begin(s, now, call).Refused?
    ensures Begin(s, now, call).code != 0
  {
  }
}
