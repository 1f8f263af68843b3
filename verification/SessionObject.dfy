// src/session.hpp and src/session.cpp: the session as the object its threads share. Each method down to
// SetCanReceiver is one critical section; Command is the commanding thread's whole path, with what the other
// threads do while it holds no lock given by a script.
module SessionObject {
  import opened Bytes
  import Codec
  import Can
  import S = Session
  import C = CanReceivers

  // What other threads do while a command is under way. The receiver is not replaced meanwhile: that happens
  // only under the device's lifecycle lock, which the commanding thread holds.
  predicate Interleaved(events: seq<S.Event>) {
    forall e :: e in events ==> !e.Installs?
  }

  class Session {
    const decoder: Codec.Decoder
    var receiver: C.CanReceiver?
    var response: Option<Bytes>
    var failed: bool
    var sequence: nat
    var pending: nat
    var source: u16
    var minimum: nat
    var closing: bool
    var stopped: bool
    var used: map<nat, nat>

    ghost function Parts(): set<object>
      reads this
    {
      if receiver == null then {} else {receiver, receiver.reassembler}
    }

    ghost function ReceiverState(): Option<Can.World>
      reads this, Parts()
    {
      if receiver == null then None else Some(receiver.State())
    }

    ghost function State(): S.Sess
      reads this, decoder, Parts()
    {
      S.Sess(decoder.buffer, ReceiverState(), response, failed, sequence, pending, source, minimum, closing, stopped, used)
    }

    ghost predicate Valid()
      reads this, decoder, Parts()
      ensures Valid() ==> S.Shaped(State())
    {
      decoder.Valid() && S.Valid(State())
    }

    constructor ()
      ensures Valid() && State() == S.INITIAL && fresh(decoder)
    {
      decoder := new Codec.Decoder();
      receiver, response, failed := null, None, false;
      sequence, pending, source, minimum := 0, 0, Codec.BOARD_NODE, 20;
      closing, stopped, used := false, false, map[];
    }

    method TellReceiver(e: Can.Event)
      requires receiver != null ==> receiver.Valid()
      modifies Parts()
      ensures receiver != null ==> receiver.Valid()
      ensures ReceiverState() == S.Told(old(ReceiverState()), e)
    {
      if receiver != null { receiver.Interfere(e); }
    }

    method Failed(reason: string)
      requires Valid()
      modifies this, Parts()
      ensures Valid() && receiver == old(receiver) && State() == S.Failed(old(State()), reason)
    {
      hide Can.Inv, Can.Step;
      S.StepValid(State(), S.Fails(reason));
      if reason != "" { failed := true; }
      TellReceiver(Can.EStop(S.ERR_DEVICE_NOT_CONNECTED));
    }

    method Receive(bytes: Bytes)
      requires Valid()
      modifies this, decoder, Parts()
      ensures Valid() && receiver == old(receiver) && State() == S.Receive(old(State()), bytes)
    {
      hide Can.Inv, Can.Step, Codec.Deframe, S.Deliver;
      ghost var s := State();
      S.ReceiveValid(s, bytes);
      var frames := decoder.Feed(bytes);
      for i := 0 to |frames|
        invariant Valid() && receiver == old(receiver)
        invariant decoder.buffer == Codec.Deframe(s.buffer + bytes).rest
        invariant S.Receive(s, bytes) == S.DeliverAll(State(), frames[i..])
      {
        assert frames[i..][0] == frames[i] && frames[i..][1..] == frames[i + 1..];
        DeliverBody(frames[i]);
      }
    }

    // The receiver sees every frame; data and indications cannot satisfy commands.
    method DeliverBody(body: Bytes)
      requires Valid()
      modifies this`response, Parts()
      ensures Valid() && receiver == old(receiver) && State() == S.Deliver(old(State()), body)
    {
      hide Can.Inv, Can.Step;
      S.ToldInv(ReceiverState(), Can.EReceive(body));
      TellReceiver(Can.EReceive(body));
      if pending != 0 && response.None? && |body| >= minimum && S.ResponseOpcode(Le16(body, 4))
         && Le16(body, 0) == 0 && Le16(body, 2) == source && Le16(body, 6) == pending {
        response := Some(body);
      }
    }

    // The allocation loop.
    method ChooseSequence(now: nat) returns (available: bool)
      modifies this`sequence
      ensures S.Probe(old(State()), old(sequence), now, 255) == (sequence, available)
    {
      ghost var s := State();
      available := false;
      var i := 0;
      while i < 255 && !available
        invariant 0 <= i <= 255
        invariant if available then S.Probe(s, s.sequence, now, 255) == (sequence, true)
                  else S.Probe(s, s.sequence, now, 255) == S.Probe(s, sequence, now, 255 - i)
        decreases 255 - i, !available
      {
        sequence := sequence % 255 + 1;
        if sequence !in used || now - used[sequence] >= S.QUARANTINE { available := true; }
        i := i + 1;
      }
    }

    // None: the command was refused, with the code.
    method BeginCommand(now: nat, call: S.Call) returns (wire: Option<Bytes>, chosen: nat, code: int)
      requires Valid()
      modifies this
      ensures Valid() && receiver == old(receiver)
      ensures match S.Begin(old(State()), now, call)
              case Refused(s, c) => wire == None && code == c && State() == s
              case Ready(s, q, w) => wire == Some(w) && chosen == q && State() == s
    {
      hide Can.Inv, Codec.Deframe, Codec.Encode, Codec.Request, S.Probe;
      S.BeginValid(State(), now, call);
      wire, chosen, code := None, 0, 0;
      if closing || failed { return None, 0, S.ERR_DEVICE_NOT_CONNECTED; }
      ghost var s := State();
      var available := ChooseSequence(now);
      if !available { return None, 0, S.ERR_EXCEEDED_LIMIT; }
      if !S.Sendable(call) { return None, 0, S.ERR_FAILED; }
      S.ProbeRange(s, s.sequence, now, 255);
      chosen := sequence;
      wire := Some(Codec.Encode(Codec.Request(call.opcode, sequence, call.payload, call.destination, call.chan)));
      source := call.destination;
      pending, minimum, response := sequence, if call.opcode == 0x100 then 12 else 20, None;
      used := used[sequence := now];
    }

    method ReleaseUnsent(chosen: nat)
      requires Valid()
      modifies this`pending, this`used
      ensures Valid() && State() == S.Release(old(State()), chosen)
    {
      pending := 0;
      used := used - {chosen};
    }

    method AbandonWritten()
      requires Valid()
      modifies this, Parts()
      ensures Valid() && receiver == old(receiver) && State() == S.Poison(old(State()))
    {
      hide Can.Inv, Can.Step;
      S.PoisonValid(State());
      pending := 0;
      failed := true;
      TellReceiver(Can.EStop(S.ERR_DEVICE_NOT_CONNECTED));
    }

    method ConcludeWait(chosen: nat) returns (body: Option<Bytes>, code: int)
      requires Valid()
      modifies this, Parts()
      ensures Valid() && receiver == old(receiver)
      ensures S.Conclude(old(State()), chosen) == S.Concluded(State(), body, code)
    {
      hide Can.Inv, Can.Step;
      S.ConcludeValid(State(), chosen);
      if !(response.Some? || closing || failed) {
        AbandonWritten();
        return None, S.ERR_TIMEOUT;
      }
      pending := 0;
      if response.Some? { used := used - {chosen}; }
      if closing { return None, S.ERR_DEVICE_NOT_CONNECTED; }
      if failed { return None, S.ERR_DEVICE_NOT_CONNECTED; }
      return response, 0;
    }

    // The first half of close; the second, under the transaction lock, sets `stopped`.
    method CloseFirst()
      requires Valid()
      modifies this, Parts()
      ensures Valid() && receiver == old(receiver) && State() == S.CloseFirst(old(State()))
    {
      hide Can.Inv, Can.Step;
      S.StepValid(State(), S.Closes);
      if stopped { return; }
      closing := true;
      TellReceiver(Can.EStop(S.ERR_DEVICE_NOT_CONNECTED));
    }

    // The old receiver is stopped as retired; a new one on a lost session is stopped at once.
    method SetCanReceiver(next: C.CanReceiver?)
      requires Valid() && (next != null ==> next.Valid())
      requires next != null && receiver != null ==> next != receiver && next.reassembler != receiver.reassembler
      modifies this, Parts()
      modifies if next == null then {} else {next, next.reassembler}
      ensures Valid() && receiver == next
      ensures State() == S.SetReceiver(old(State()), if next == null then None else Some(old(next.State())))
      ensures var was := old(receiver);
              was != null ==> was.State() == Can.Step(old(was.State()), Can.EStop(S.ERR_INVALID_CHANNEL_ID))
    {
      hide Can.Inv, Can.Step;
      S.StepValid(State(), S.Installs(if next == null then None else Some(next.State())));
      if receiver != null { receiver.Interfere(Can.EStop(S.ERR_INVALID_CHANNEL_ID)); }
      receiver := next;
      if closing || failed { TellReceiver(Can.EStop(S.ERR_DEVICE_NOT_CONNECTED)); }
    }

    method Interfere(events: seq<S.Event>)
      requires Valid() && Interleaved(events)
      modifies this, decoder, Parts()
      ensures Valid() && receiver == old(receiver)
      ensures (forall e :: e in events ==> S.Proper(e)) && State() == S.Run(old(State()), events)
    {
      hide Can.Inv, Can.Step, S.Receive;
      ghost var s := State();
      for i := 0 to |events|
        invariant Valid() && receiver == old(receiver)
        invariant S.Run(s, events) == S.Run(State(), events[i..])
      {
        assert events[i..][0] == events[i] && events[i..][1..] == events[i + 1..];
        S.StepValid(State(), events[i]);
        match events[i]
        case Bytes(bytes) => Receive(bytes);
        case Fails(reason) => Failed(reason);
        case Closes => CloseFirst();
        case Installs(_) =>
        case Touches(e) => TellReceiver(e);
      }
    }

    method Command(now: nat, call: S.Call, script: S.Script)
      returns (sent: Option<Bytes>, body: Option<Bytes>, code: int)
      requires Valid()
      requires Interleaved(script.early) && Interleaved(script.sending) && Interleaved(script.waiting)
      modifies this, decoder, Parts()
      ensures Valid() && receiver == old(receiver)
      ensures S.ProperScript(script) && S.Command(old(State()), now, call, script) == S.Outcome(State(), sent, body, code)
    {
      hide Can.Inv, Can.Step, S.Begin, S.Run, S.Conclude, S.Poison, S.Valid;
      if !script.slot { return None, None, S.ERR_TIMEOUT; }
      var wire, chosen, refused := BeginCommand(now, call);
      if wire.None? { return None, None, refused; }
      Interfere(script.early);
      if script.throws {
        ReleaseUnsent(chosen);
        return None, None, S.ERR_FAILED;
      }
      if script.expired {
        ReleaseUnsent(chosen);
        return None, None, S.ERR_TIMEOUT;
      }
      Interfere(script.sending);
      if !script.sendOk {
        AbandonWritten();
        return wire, None, S.ERR_FAILED;
      }
      Interfere(script.waiting);
      sent := wire;
      body, code := ConcludeWait(chosen);
    }
  }
}
