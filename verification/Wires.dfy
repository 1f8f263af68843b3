// What goes over the wire in every run of the session: which request each written frame carries, and what the body a
// command returns has in common with the frame that command wrote.
module Wires {
  import opened Bytes
  import Codec
  import Can
  import S = Session
  import opened SessionSystem

  // The frame carries the call under some number from 1 to 255.
  ghost predicate Numbered(wire: Bytes, call: S.Call) {
    exists n :: 1 <= n <= 255 && S.Carries(wire, n, call)
  }

  // What the session would take for the answer to what it is waiting for.
  predicate Matches(s: S.Sess, body: Bytes) {
    |body| >= 8 && Le16(body, 0) == 0 && Le16(body, 2) == s.source && Le16(body, 6) == s.pending
  }

  ghost predicate WireInv(y: Sys) {
    && |y.written| == |y.asked|
    && (forall k :: 0 <= k < |y.asked| ==> Numbered(y.written[k], y.asked[k]))
    && (!y.phase.Idle? ==>
          S.Carries(y.wire, y.phase.sequence, y.call) && y.sess.source == y.call.destination
          && y.sess.pending == y.phase.sequence && 1 <= y.phase.sequence <= 255)
    && (y.phase.Written? ==> y.phase.request < |y.asked| && y.written[y.phase.request] == y.wire)
    && (S.Usable(y.sess) && y.phase.Held? ==> y.sess.response.None?)
    && (S.Usable(y.sess) && y.phase.Written? && y.sess.response.Some? ==> Matches(y.sess, y.sess.response.value))
    && (forall r :: r in y.results ==> r.request < |y.written| && Echoes(y.written[r.request], r.body))
  }

  lemma StartWire(call: S.Call)
    ensures WireInv(Start(call))
  {
  }

  lemma MatchingEchoes(wire: Bytes, sequence: nat, call: S.Call, s: S.Sess, body: Bytes)
    requires S.Carries(wire, sequence, call) && s.source == call.destination && s.pending == sequence
    requires Matches(s, body)
    ensures Echoes(wire, body)
  {
    hide Codec.Deframe;
  }

  lemma {:induction false} DeliverMatches(s: S.Sess, bodies: seq<Bytes>)
    requires S.Shaped(s)
    ensures var v := S.DeliverAll(s, bodies);
            && v.source == s.source && v.pending == s.pending
            && (v.response != s.response ==> v.response.Some? && Matches(s, v.response.value))
    decreases |bodies|
  {
    hide Can.Step;
    if bodies != [] { DeliverMatches(S.Deliver(s, bodies[0]), bodies[1..]); }
  }

  lemma BeginsWire(y: Sys, now: nat, call: S.Call)
    requires Inv(y) && WireInv(y) && Enabled(y, Begins(now, call))
    ensures WireInv(Next(y, Begins(now, call)))
  {
    hide Inv, Codec.Deframe, Stream, S.Probe, Codec.Encode, Codec.Request, Echoes, S.Carries, Numbered;
    InvReady(y);
    if S.Begin(y.sess, now, call).Ready? { S.BeginWrites(y.sess, now, call); }
  }

  lemma WritesWire(y: Sys)
    requires Inv(y) && WireInv(y) && Enabled(y, Writes)
    ensures WireInv(Next(y, Writes))
  {
    hide Inv, Stream, Echoes, S.Carries;
    InvReady(y);
    var z := Next(y, Writes);
    assert Numbered(y.wire, y.call);
    forall k | 0 <= k < |z.asked| ensures Numbered(z.written[k], z.asked[k]) {
      if k < |y.asked| { assert z.written[k] == y.written[k] && z.asked[k] == y.asked[k]; }
    }
  }

  lemma ConcludesWire(y: Sys)
    requires Inv(y) && WireInv(y) && Enabled(y, Concludes)
    ensures WireInv(Next(y, Concludes))
  {
    hide Inv, Stream, S.Conclude, S.Valid, S.Carries, Echoes, Numbered;
    InvReady(y);
    SessionValid(y);
    S.ConcludeValid(y.sess, y.phase.sequence);
    if S.Conclude(y.sess, y.phase.sequence).body.Some? {
      MatchingEchoes(y.wire, y.phase.sequence, y.call, y.sess, y.sess.response.value);
    }
  }

  lemma SessionValid(y: Sys)
    requires Inv(y)
    ensures S.Valid(y.sess)
  {
  }

  lemma ArrivesWire(y: Sys, n: nat)
    requires Inv(y) && WireInv(y) && Enabled(y, Arrives(n))
    ensures WireInv(Next(y, Arrives(n)))
  {
    hide Inv, Stream, S.Valid, S.Carries, Echoes, Numbered, Codec.Deframe, S.DeliverAll;
    InvReady(y);
    SessionValid(y);
    var chunk := Stream(y.emitted)[y.taken..y.taken + n];
    var p := Codec.Deframe(y.sess.buffer + chunk);
    S.ReceiveValid(y.sess, chunk);
    DeliverMatches(y.sess.(buffer := p.rest), p.frames);
    if y.phase.Held? { HeldUnanswered(y, n); }
  }

  lemma HeldUnanswered(y: Sys, n: nat)
    requires Inv(y) && y.phase.Held? && Enabled(y, Arrives(n))
    ensures var z := Next(y, Arrives(n));
            S.Usable(z.sess) ==> z.sess.response.None?
  {
    hide Codec.Deframe, Stream, S.Valid, S.Receive, S.Rotation;
    ArrivesInv(y, n);
  }

  lemma OthersWire(y: Sys, m: Move)
    requires Inv(y) && WireInv(y) && Enabled(y, m)
    requires m.Abandons? || m.WriteFails? || m.Elsewhere? || m.ClosesLast? || m.Adapter?
    ensures WireInv(Next(y, m))
  {
    hide Inv, Stream, S.Valid, S.Carries, Echoes, Numbered, S.Step;
    InvReady(y);
    SessionValid(y);
    if m.Elsewhere? { S.StepKeeps(y.sess, m.event); }
  }

  lemma NextWire(y: Sys, m: Move)
    requires Inv(y) && WireInv(y) && Enabled(y, m)
    ensures WireInv(Next(y, m))
  {
    hide Inv, WireInv, Next;
    match m
    case Begins(now, call) => BeginsWire(y, now, call);
    case Writes => WritesWire(y);
    case Concludes => ConcludesWire(y);
    case Arrives(n) => ArrivesWire(y, n);
    case _ => OthersWire(y, m);
  }

  lemma {:induction false} ReachesWire(y0: Sys, moves: seq<Move>, y: Sys)
    requires Inv(y0) && WireInv(y0) && Reaches(y0, moves, y)
    ensures WireInv(y)
    decreases |moves|
  {
    hide Inv, WireInv, Next;
    if moves != [] {
      NextInv(y0, moves[0]);
      NextWire(y0, moves[0]);
      ReachesWire(Next(y0, moves[0]), moves[1..], y);
    }
  }

  // In every run, each frame handed to the transport is one whole request, the one that was asked for, under a
  // number from 1 to 255; and each body a command returned echoes the frame that very command wrote.
  lemma RequestsOnTheWire(call: S.Call, moves: seq<Move>, y: Sys)
    requires Reaches(Start(call), moves, y)
    ensures |y.written| == |y.asked|
    ensures forall k :: 0 <= k < |y.asked| ==> Numbered(y.written[k], y.asked[k])
    ensures forall r :: r in y.results ==> r.request < |y.written| && Echoes(y.written[r.request], r.body)
  {
    hide Reaches, Numbered, Echoes;
    StartInv(call);
    StartWire(call);
    ReachesWire(Start(call), moves, y);
  }
}
