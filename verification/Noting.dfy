// src/j2534.cpp and src/session.cpp: a write is noted under its sequence number after the command has chosen it and
// before the request goes out. So in every run of the session, the writes a receiver has noted are in the order of
// their numbers, and what Pairing says of such writes holds of all reachable receivers.
module Noting {
  import opened Bytes
  import Can
  import Codec
  import P = Pairing
  import S = Session
  import Y = SessionSystem

  // told: whether the command in flight has called its sequence callback.
  datatype Wide = Wide(sys: Y.Sys, told: bool)

  datatype Move =
    | Moves(move: Y.Move)
    | Tells(flags: u32, message: Bytes, call: Option<nat>)

  // Writes are noted by the callback alone, and a receiver is new when it is installed.
  predicate Allowed(m: Y.Move) {
    m.Elsewhere? ==>
      && !(m.event.Touches? && m.event.e.ENote?)
      && (m.event.Installs? && m.event.receiver.Some? ==> m.event.receiver.value.log.noted == [])
  }

  ghost predicate Enabled(x: Wide, m: Move)
    requires Y.Inv(x.sys)
  {
    match m
    case Moves(move) => Y.Enabled(x.sys, move) && Allowed(move)
    case Tells(_, _, _) => x.sys.phase.Held? && !x.told && x.sys.sess.receiver.Some?
  }

  // What the callback notes.
  ghost function Told(x: Wide, flags: u32, message: Bytes, call: Option<nat>): Y.Move
    requires Y.Inv(x.sys) && x.sys.phase.Held?
  {
    Y.Elsewhere(S.Touches(Can.ENote(Can.Write(Can.Record(x.sys.phase.sequence, flags, message, call), x.sys.allocations))))
  }

  ghost function Next(x: Wide, m: Move): Wide
    requires Y.Inv(x.sys) && Enabled(x, m)
  {
    match m
    case Moves(move) => Wide(Y.Next(x.sys, move), !move.Begins? && x.told)
    case Tells(flags, message, call) => Wide(Y.Next(x.sys, Told(x, flags, message, call)), true)
  }

  // ---------------------------------------------------------------- what every move keeps

  ghost predicate InOrder(noted: seq<Can.Write>, allocations: nat, untold: bool) {
    && P.SentInOrder(noted)
    && forall k :: 0 <= k < |noted| ==> noted[k].alloc <= allocations && (untold ==> noted[k].alloc < allocations)
  }

  ghost predicate Inv(x: Wide) {
    && Y.Inv(x.sys)
    && (x.sys.phase.Held? ==> x.sys.allocations > 0 && x.sys.phase.sequence == S.Rotation(x.sys.allocations))
    && (x.sys.sess.receiver.Some? ==>
          InOrder(x.sys.sess.receiver.value.log.noted, x.sys.allocations, x.sys.phase.Held? && !x.told))
  }

  lemma StartInv(call: S.Call)
    ensures Inv(Wide(Y.Start(call), false))
  {
    Y.StartInv(call);
  }

  // v has the writes of r noted, or none.
  predicate SameNotes(r: Option<Can.World>, v: Option<Can.World>) {
    v.Some? ==> v.value.log.noted == [] || (r.Some? && v.value.log.noted == r.value.log.noted)
  }

  lemma StepNotes(w: Can.World, e: Can.Event)
    requires |w.log.open| == |w.rx.pending| && !e.ENote?
    ensures Can.Step(w, e).log.noted == w.log.noted
  {
    hide Can.Receive;
    if !e.EForget? { var _ := P.StepDropsOldest(w, e); }
  }

  lemma ToldNotes(r: Option<Can.World>, e: Can.Event)
    requires r.Some? ==> |r.value.log.open| == |r.value.rx.pending|
    requires !e.ENote?
    ensures SameNotes(r, S.Told(r, e))
  {
    hide Can.Step;
    if r.Some? { StepNotes(r.value, e); }
  }

  lemma {:induction false} DeliverNotes(s: S.Sess, bodies: seq<Bytes>)
    requires S.Shaped(s)
    ensures SameNotes(s.receiver, S.DeliverAll(s, bodies).receiver)
    decreases |bodies|
  {
    hide Can.Step;
    if bodies != [] {
      ToldNotes(s.receiver, Can.EReceive(bodies[0]));
      DeliverNotes(S.Deliver(s, bodies[0]), bodies[1..]);
    }
  }

  lemma SessionNotes(s: S.Sess, e: S.Event)
    requires S.Shaped(s) && S.Proper(e) && Allowed(Y.Elsewhere(e))
    ensures SameNotes(s.receiver, S.Step(s, e).receiver)
  {
    hide Can.Step, Can.Inv, S.DeliverAll;
    match e
    case Bytes(bytes) => ReceiveNotes(s, bytes);
    case Fails(reason) => ToldNotes(s.receiver, Can.EStop(S.ERR_DEVICE_NOT_CONNECTED));
    case Closes => ToldNotes(s.receiver, Can.EStop(S.ERR_DEVICE_NOT_CONNECTED));
    case Installs(r) => ToldNotes(r, Can.EStop(S.ERR_DEVICE_NOT_CONNECTED));
    case Touches(c) => ToldNotes(s.receiver, c);
  }

  lemma ReceiveNotes(s: S.Sess, bytes: Bytes)
    requires S.Shaped(s)
    ensures SameNotes(s.receiver, S.Receive(s, bytes).receiver)
  {
    hide S.DeliverAll;
    var p := Codec.Deframe(s.buffer + bytes);
    DeliverNotes(s.(buffer := p.rest), p.frames);
  }

  lemma MoveNotes(y: Y.Sys, m: Y.Move)
    requires Y.Ready(y) && Y.Enabled(y, m) && Allowed(m)
    ensures SameNotes(y.sess.receiver, Y.Next(y, m).sess.receiver)
  {
    hide Can.Step, S.Receive, S.Step, S.Probe, Y.Stream, Can.Inv;
    match m
    case Begins(now, call) =>
    case WriteFails => ToldNotes(y.sess.receiver, Can.EStop(S.ERR_DEVICE_NOT_CONNECTED));
    case Concludes => ToldNotes(y.sess.receiver, Can.EStop(S.ERR_DEVICE_NOT_CONNECTED));
    case Elsewhere(e) => SessionNotes(y.sess, e);
    case Arrives(n) => ReceiveNotes(y.sess, Y.Stream(y.emitted)[y.taken..y.taken + n]);
    case _ =>
  }

  // Only Begins draws a number or enters the held phase.
  lemma MovePhase(y: Y.Sys, m: Y.Move)
    requires Y.Ready(y) && Y.Enabled(y, m) && !m.Begins?
    ensures var z := Y.Next(y, m);
            z.allocations == y.allocations && (z.phase.Held? ==> z.phase == y.phase)
  {
    hide S.Receive, S.Step, Y.Stream;
  }

  lemma MoveInv(x: Wide, m: Y.Move)
    requires Inv(x) && Enabled(x, Moves(m))
    ensures Inv(Next(x, Moves(m)))
  {
    hide Y.Inv, Y.Next, Y.Enabled, S.Rotation, Y.Stream;
    Y.InvReady(x.sys);
    Y.NextInv(x.sys, m);
    MoveNotes(x.sys, m);
    if m.Begins? {
      Y.BeginsHeld(x.sys, m.now, m.call);
    } else {
      MovePhase(x.sys, m);
    }
  }

  lemma TellInv(x: Wide, flags: u32, message: Bytes, call: Option<nat>)
    requires Inv(x) && Enabled(x, Tells(flags, message, call))
    ensures Y.Enabled(x.sys, Told(x, flags, message, call))
    ensures Inv(Next(x, Tells(flags, message, call)))
  {
    hide Y.Inv, S.Rotation, Y.Stream, Can.Inv;
    Y.InvReady(x.sys);
    Y.NextInv(x.sys, Told(x, flags, message, call));
  }

  lemma NextInv(x: Wide, m: Move)
    requires Inv(x) && Enabled(x, m)
    ensures Inv(Next(x, m))
  {
    hide Inv, Next, Enabled;
    match m
    case Moves(move) => MoveInv(x, move);
    case Tells(flags, message, call) => TellInv(x, flags, message, call);
  }

  // ---------------------------------------------------------------- whole runs

  ghost predicate Reaches(x0: Wide, moves: seq<Move>, x: Wide)
    decreases |moves|
  {
    if moves == [] then x == x0
    else Y.Inv(x0.sys) && Enabled(x0, moves[0]) && Reaches(Next(x0, moves[0]), moves[1..], x)
  }

  lemma {:induction false} ReachesInv(x0: Wide, moves: seq<Move>, x: Wide)
    requires Inv(x0) && Reaches(x0, moves, x)
    ensures Inv(x)
    decreases |moves|
  {
    hide Inv, Next, Enabled, Y.Inv;
    if moves != [] {
      NextInv(x0, moves[0]);
      ReachesInv(Next(x0, moves[0]), moves[1..], x);
    }
  }

  // In every run, whatever other threads, the wire and the adapter do, each noted write carries the number its
  // command was given, and later writes carry later numbers. So a confirmation of a noted write is credited to
  // that write if and only if no other waiting write with the same number comes first; and it is, as long as
  // fewer than 255 commands have been allocated since the oldest write still waiting.
  lemma ConfirmationsFindTheirWrites(call: S.Call, moves: seq<Move>, x: Wide, k: nat, timestamp: u32)
    requires Reaches(Wide(Y.Start(call), false), moves, x) && x.sys.sess.receiver.Some?
    requires k < |x.sys.sess.receiver.value.log.noted|
    ensures var w := x.sys.sess.receiver.value;
            && Can.Inv(w) && P.SentInOrder(w.log.noted)
            && (P.CreditedRightly(w, k, timestamp) <==> !exists j :: P.Rival(w, k, j))
            && (x.sys.allocations - w.log.noted[k].alloc < 255
                && (forall j :: j in w.log.open && j < |w.log.noted| ==>
                      x.sys.allocations - w.log.noted[j].alloc < 255) ==>
                  P.CreditedRightly(w, k, timestamp))
  {
    hide Reaches, P.CreditedRightly, Can.Inv, P.Rival, S.Rotation;
    StartInv(call);
    ReachesInv(Wide(Y.Start(call), false), moves, x);
    ReceiverInv(x.sys);
    var w := x.sys.sess.receiver.value;
    P.PairsExactly(w, k, timestamp);
    if x.sys.allocations - w.log.noted[k].alloc < 255
       && forall j :: j in w.log.open && j < |w.log.noted| ==> x.sys.allocations - w.log.noted[j].alloc < 255
    {
      P.PairsWhenRecent(w, k, timestamp);
    }
  }

  lemma ReceiverInv(y: Y.Sys)
    requires Y.Inv(y) && y.sess.receiver.Some?
    ensures Can.Inv(y.sess.receiver.value)
  {
    hide Can.Inv;
  }
}
