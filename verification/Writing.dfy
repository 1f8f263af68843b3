// src/j2534.cpp, PassThruWriteMsgs, over the receiver: a batch is sent message by message, each noted before
// it goes out, and a timed call then waits for every confirmation.
module Writing {
  import opened Bytes
  import opened Can
  import opened Pairing
  import IsoTp
  import R = Reading
  import C = CanReceivers

  datatype Payload = Payload(message: Bytes, flags: u32)

  datatype Answer = Accepted | BufferFull | Refused

  // What meets one message of a batch.
  //   Expired: the deadline of a timed call has passed; an untimed call has none, and the command fails
  //   Unsent: the command failed before it had a sequence number
  //   Sent: it was noted under `sequence`; `before` and `during` are what other threads did meanwhile
  datatype Turn =
    | Expired
    | Unsent(before: seq<Event>)
    | Sent(before: seq<Event>, sequence: u16, alloc: nat, during: seq<Event>, answer: Answer)

  datatype Status = Ok | Timeout | Full | Failed | Stopped(code: int)

  datatype SendResult = SendResult(world: World, sent: nat, status: Status)

  function WriteOf(p: Payload, turn: Turn, call: nat): Write
    requires turn.Sent?
  {
    Write(Record(turn.sequence, p.flags, p.message, Some(call)), turn.alloc)
  }

  // Sending from the batch's index `at` on.
  function Send(w: World, batch: seq<Payload>, at: nat, call: nat, timed: bool, turns: seq<Turn>): (s: SendResult)
    requires |w.log.open| == |w.rx.pending| && at <= |batch| == |turns|
    ensures |s.world.log.open| == |s.world.rx.pending|
    decreases |batch| - at
  {
    if at == |batch| then SendResult(w, at, Ok)
    else
      match turns[at]
      case Expired => if timed then SendResult(w, at, Timeout) else SendResult(w, at, Failed)
      case Unsent(before) => SendResult(Run(w, before), at, Failed)
      case Sent(before, _, _, during, answer) =>
        var v := Run(Note(Run(w, before), WriteOf(batch[at], turns[at], call)), during);
        match answer
        case Accepted => Send(v, batch, at + 1, call, timed, turns)
        case BufferFull => SendResult(Forget(v), at, Full)
        case Refused => SendResult(Forget(v), at, Failed)
  }

  datatype WriteResult = WriteResult(world: World, count: nat, status: Status)

  // awaiting: what the others do until the wait for the confirmations ends, because they are all in, because
  // the channel was stopped, or because the deadline passed. after: until the count is read.
  function WriteAll(w: World, batch: seq<Payload>, call: nat, timed: bool, turns: seq<Turn>,
                    awaiting: seq<Event>, after: seq<Event>): WriteResult
    requires |w.log.open| == |w.rx.pending| && |batch| == |turns|
  {
    var s := Send(w, batch, 0, call, timed, turns);
    if !timed then WriteResult(s.world, s.sent, s.status)
    else if s.status != Ok then
      var v := Run(s.world, after);
      WriteResult(v, Confirmed(v.rx, call), s.status)
    else
      var u := Run(s.world, awaiting);
      var v := Run(u, after);
      WriteResult(v, Confirmed(v.rx, call),
                  if u.rx.stopped != 0 then Stopped(u.rx.stopped)
                  else if Confirmed(u.rx, call) >= |batch| then Ok else Timeout)
  }

  // ---------------------------------------------------------------- one call's writes

  function Carried(write: Write): Payload {
    Payload(write.record.message, write.record.flags)
  }

  // The messages and flags one call has noted, in order.
  function Mine(noted: seq<Write>, call: nat): seq<Payload> {
    if noted == [] then []
    else Mine(noted[..|noted| - 1], call)
         + (if noted[|noted| - 1].record.call == Some(call) then [Carried(noted[|noted| - 1])] else [])
  }

  lemma {:induction false} MineCounts(noted: seq<Write>, call: nat)
    ensures |Mine(noted, call)| == Noted(noted, call)
  {
    if noted != [] { MineCounts(noted[..|noted| - 1], call); }
  }

  lemma MineSnoc(noted: seq<Write>, write: Write, call: nat)
    ensures Mine(noted + [write], call)
         == Mine(noted, call) + (if write.record.call == Some(call) then [Carried(write)] else [])
  {
    assert (noted + [write])[..|noted|] == noted;
  }

  function StoredMessages(batch: seq<Payload>): seq<Payload> {
    seq(|batch|, i requires 0 <= i < |batch| => Payload(IsoTp.Clip(batch[i].message, 4 + 8 + 4096), batch[i].flags))
  }

  // Steps of other calls.
  predicate Others(events: seq<Event>, call: nat) {
    forall e :: e in events ==> e.ENote? ==> e.write.record.call != Some(call)
  }

  predicate OthersOnly(turns: seq<Turn>, call: nat) {
    forall t :: t in turns ==>
      && (t.Unsent? ==> Others(t.before, call))
      && (t.Sent? ==> Others(t.before, call) && Others(t.during, call))
  }

  lemma {:induction false} OthersRun(w: World, events: seq<Event>, call: nat)
    requires Inv(w) && Others(events, call)
    ensures Inv(Run(w, events)) && Mine(Run(w, events).log.noted, call) == Mine(w.log.noted, call)
    decreases |events|
  {
    hide Receive, Offer, Confirm, Inv;
    if events != [] {
      var e := events[0];
      StepInv(w, e);
      if ReaderSide(e) {
        var i := StepDropsOldest(w, e);
      } else if e.ENote? {
        MineSnoc(w.log.noted, Stored(e.write), call);
      }
      OthersRun(Step(w, e), events[1..], call);
    }
  }

  lemma {:induction false} SendNotes(w: World, batch: seq<Payload>, at: nat, call: nat, timed: bool, turns: seq<Turn>)
    requires Inv(w) && at <= |batch| == |turns| && OthersOnly(turns, call)
    requires Mine(w.log.noted, call) == StoredMessages(batch[..at])
    ensures var s := Send(w, batch, at, call, timed, turns);
            && Inv(s.world) && s.sent <= |batch|
            && (s.status == Ok ==> s.sent == |batch|)
            && (exists n :: s.sent <= n <= |batch| && n <= s.sent + 1
                  && Mine(s.world.log.noted, call) == StoredMessages(batch[..n]))
    decreases |batch| - at
  {
    hide Run, Note, Inv;
    if at == |batch| || turns[at].Expired? {
      return;
    }
    var t := turns[at];
    assert t in turns;
    OthersRun(w, t.before, call);
    if t.Sent? {
      var u, x := Run(w, t.before), WriteOf(batch[at], t, call);
      NoteMine(u, x, call);
      OthersRun(Note(u, x), t.during, call);
      var v := Run(Note(u, x), t.during);
      assert StoredMessages(batch[..at + 1]) == StoredMessages(batch[..at]) + [Carried(Stored(x))];
      if t.answer == Accepted {
        SendNotes(v, batch, at + 1, call, timed, turns);
      } else {
        StepInv(v, EForget);
      }
    }
  }

  lemma NoteMine(w: World, x: Write, call: nat)
    requires Inv(w) && x.record.call == Some(call)
    ensures Inv(Note(w, x)) && Mine(Note(w, x).log.noted, call) == Mine(w.log.noted, call) + [Carried(Stored(x))]
  {
    hide Inv;
    StepInv(w, ENote(x));
    MineSnoc(w.log.noted, Stored(x), call);
  }

  // ---------------------------------------------------------------- the whole call

  lemma {:induction false} CountMissing(noted: seq<Write>, at: seq<nat>, m: nat, call: nat, k: nat)
    requires m <= |noted| && Below(at, m) && k < m && k !in at && noted[k].record.call == Some(call)
    requires forall i, j :: 0 <= i < j < |at| ==> at[i] < at[j]
    ensures Count(noted, at, call) < Noted(noted[..m], call)
    decreases m
  {
    assert noted[..m][..m - 1] == noted[..m - 1];
    if at != [] && at[|at| - 1] == m - 1 {
      CountMissing(noted, at[..|at| - 1], m - 1, call, k);
    } else if k == m - 1 {
      CountBound(noted, at, m - 1, call);
    } else {
      CountMissing(noted, at, m - 1, call, k);
    }
  }

  ghost predicate AllConfirmed(w: World, call: nat) {
    forall k: nat :: k < |w.log.noted| && w.log.noted[k].record.call == Some(call) ==> k in w.log.paired
  }

  lemma ConfirmedIsAll(w: World, call: nat)
    requires Inv(w) && Confirmed(w.rx, call) >= Noted(w.log.noted, call)
    ensures AllConfirmed(w, call)
  {
    var noted, p := w.log.noted, w.log.paired;
    assert Confirmed(w.rx, call) == Count(noted, p, call);
    assert noted[..|noted|] == noted;
    forall k: nat | k < |noted| && noted[k].record.call == Some(call)
      ensures k in p
    {
      if k !in p { CountMissing(noted, p, |noted|, call, k); }
    }
  }

  // Timed writes are exact. For any batch, any interleaving and any outcome of any command: the count reported
  // never exceeds the batch, and a call that succeeds reports the whole batch. A timed call reports exactly the
  // confirmations credited to it; when it succeeds its writes are the batch's messages in order, each of them
  // individually confirmed. An untimed call reports the messages the adapter accepted.
  lemma WritesAreExact(w: World, batch: seq<Payload>, call: nat, timed: bool, turns: seq<Turn>,
                       awaiting: seq<Event>, after: seq<Event>)
    requires Inv(w) && |batch| == |turns| && OthersOnly(turns, call)
    requires Others(awaiting, call) && Others(after, call)
    requires Noted(w.log.noted, call) == 0
    ensures var r := WriteAll(w, batch, call, timed, turns, awaiting, after);
            && Inv(r.world) && r.count <= |batch|
            && (r.status == Ok ==> r.count == |batch|)
            && (timed ==> r.count == Confirmed(r.world.rx, call))
            && (timed && r.status == Ok ==>
                  Mine(r.world.log.noted, call) == StoredMessages(batch) && AllConfirmed(r.world, call))
            && (!timed ==> r.count == Send(w, batch, 0, call, timed, turns).sent)
  {
    hide Run, Send, Inv;
    MineCounts(w.log.noted, call);
    assert StoredMessages(batch[..0]) == [];
    SendNotes(w, batch, 0, call, timed, turns);
    var s := Send(w, batch, 0, call, timed, turns);
    var n :| s.sent <= n <= |batch| && Mine(s.world.log.noted, call) == StoredMessages(batch[..n]);
    MineCounts(s.world.log.noted, call);
    if timed {
      var u := if s.status == Ok then Run(s.world, awaiting) else s.world;
      if s.status == Ok { OthersRun(s.world, awaiting, call); }
      OthersRun(u, after, call);
      var v := Run(u, after);
      MineCounts(v.log.noted, call);
      CallAccounts(v, call);
      if s.status == Ok && Confirmed(u.rx, call) >= |batch| {
        assert batch[..n] == batch;
        ConfirmedStay(u, after, call);
        ConfirmedIsAll(v, call);
      }
    }
  }

  lemma ConfirmedStaysOnce(w: World, e: Event, call: nat)
    requires Inv(w)
    ensures Confirmed(Step(w, e).rx, call) >= Confirmed(w.rx, call)
  {
    hide Offer, Confirm, Receive, Inv;
    if e.EReceive? {
      var body := e.body;
      if Addressed(w.rx, body) && |body| >= 20 && Le16(body, 4) == 10 && Le32(body, 12) == 0x106 {
        ReceiveConfirms(w, body);
        ConfirmFrame(w, Le16(body, 6), Le32(body, 16));
      } else {
        ReceiveFrame(w, body);
      }
    }
  }

  lemma {:induction false} ConfirmedStay(w: World, events: seq<Event>, call: nat)
    requires Inv(w)
    ensures Confirmed(Run(w, events).rx, call) >= Confirmed(w.rx, call)
    decreases |events|
  {
    hide Step, Inv;
    if events != [] {
      ConfirmedStaysOnce(w, events[0], call);
      StepInv(w, events[0]);
      ConfirmedStay(Step(w, events[0]), events[1..], call);
    }
  }

  // ---------------------------------------------------------------- the call itself

  method WriteMsgs(receiver: C.CanReceiver, batch: seq<Payload>, call: nat, timed: bool, turns: seq<Turn>,
                   awaiting: seq<Event>, after: seq<Event>) returns (count: nat, status: Status)
    requires receiver.Valid() && |turns| == |batch|
    modifies receiver, receiver.reassembler
    ensures receiver.Valid()
    ensures var r := WriteAll(old(receiver.State()), batch, call, timed, turns, awaiting, after);
            receiver.State() == r.world && count == r.count && status == r.status
  {
    hide Run, Inv, Note, Forget;
    ghost var w := receiver.State();
    count, status := 0, Ok;
    var index := 0;
    while index < |batch| && status == Ok
      invariant 0 <= index <= |batch| && receiver.Valid() && (!timed ==> count == index)
      invariant status == Ok ==>
                  Send(w, batch, 0, call, timed, turns) == Send(receiver.State(), batch, index, call, timed, turns)
      invariant status != Ok ==> Send(w, batch, 0, call, timed, turns) == SendResult(receiver.State(), index, status)
      decreases |batch| - index, status == Ok
    {
      match turns[index]
      case Expired => status := if timed then Timeout else Failed;
      case Unsent(before) =>
        receiver.InterfereAll(before);
        status := Failed;
      case Sent(before, sequence, alloc, during, answer) =>
        receiver.InterfereAll(before);
        receiver.NoteTransmit(batch[index].message, batch[index].flags, sequence, Some(call), alloc);
        receiver.InterfereAll(during);
        if answer == Accepted {
          index := index + 1;
          if !timed { count := index; }
        } else {
          receiver.ForgetTransmit();
          status := if answer == BufferFull then Full else Failed;
        }
    }
    if !timed { return; }
    if status == Ok {
      receiver.InterfereAll(awaiting);
      if receiver.stopped != 0 {
        status := Stopped(receiver.stopped);
      } else if (if call in receiver.confirmed then receiver.confirmed[call] else 0) < |batch| {
        status := Timeout;
      }
    }
    receiver.InterfereAll(after);
    count := if call in receiver.confirmed then receiver.confirmed[call] else 0;
  }
}
