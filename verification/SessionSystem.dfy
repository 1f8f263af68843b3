// The session together with the adapter and the wire between them: every interleaving of a command's critical
// sections, the reader thread, transport failures, close and the adapter's own steps.
//
// What is assumed of the adapter: it answers each request it may have been given at most once, and nothing
// else it sends carries a response opcode. It may answer with anything, in any order with data and
// indications, and the octets may reach the reader in chunks cut anywhere.
module SessionSystem {
  import opened Bytes
  import Codec
  import Can
  import S = Session

  datatype Emission =
    | Answer(request: nat, body: Bytes)
    | Other(body: Bytes)

  datatype Phase =
    | Idle
    | Held(sequence: nat)
    | Written(request: nat, sequence: nat)

  datatype Result = Result(request: nat, body: Bytes)

  // asked: the calls handed to the transport, in order. unanswered: those the adapter may still answer.
  // wire: what the current command is to write; written: what each command handed to the transport, in order.
  // taken: how many octets of what the adapter has sent have reached the reader. allocations: how many
  // sequence numbers have been chosen. results: the bodies commands have returned.
  datatype Sys = Sys(
    sess: S.Sess, phase: Phase, call: S.Call, wire: Bytes, asked: seq<S.Call>, written: seq<Bytes>, unanswered: set<nat>,
    emitted: seq<Emission>, taken: nat, allocations: nat, results: seq<Result>)

  function Start(call: S.Call): Sys {
    Sys(S.INITIAL, Idle, call, [], [], [], {}, [], 0, 0, [])
  }

  predicate Emittable(e: Emission) {
    && Codec.Encodable(e.body)
    && (e.Other? ==> |e.body| < 6 || !S.ResponseOpcode(Le16(e.body, 4)))
  }

  function Bodies(es: seq<Emission>): (bs: seq<Bytes>)
    ensures |bs| == |es|
    ensures forall i :: 0 <= i < |es| ==> bs[i] == es[i].body
  {
    seq(|es|, i requires 0 <= i < |es| => es[i].body)
  }

  ghost predicate Sendable(es: seq<Emission>) {
    forall i :: 0 <= i < |es| ==> Emittable(es[i])
  }

  lemma BodiesEncodable(es: seq<Emission>)
    requires Sendable(es)
    ensures forall b :: b in Bodies(es) ==> Codec.Encodable(b)
  {
  }

  // Everything the adapter has sent, as octets.
  function Stream(es: seq<Emission>): Bytes
    requires Sendable(es)
  {
    BodiesEncodable(es);
    Codec.EncodeAll(Bodies(es))
  }

  datatype Move =
    | Begins(now: nat, call: S.Call)
    | Abandons
    | Writes
    | WriteFails
    | Concludes
    | Elsewhere(event: S.Event)
    | ClosesLast
    | Adapter(emission: Emission)
    | Arrives(n: nat)

  ghost predicate Ready(y: Sys) {
    S.Shaped(y.sess) && Sendable(y.emitted) && y.taken <= |Stream(y.emitted)|
  }

  ghost predicate Enabled(y: Sys, m: Move)
    requires Ready(y)
  {
    match m
    case Begins(_, _) => y.phase.Idle?
    case Abandons => y.phase.Held?
    case Writes => y.phase.Held?
    case WriteFails => y.phase.Written?
    case Concludes => y.phase.Written?
    case Elsewhere(e) => S.Proper(e) && !e.Bytes?
    case ClosesLast => y.phase.Idle? && y.sess.closing
    case Adapter(e) => Emittable(e) && (e.Answer? ==> e.request in y.unanswered)
    case Arrives(n) => y.taken + n <= |Stream(y.emitted)|
  }

  ghost function Next(y: Sys, m: Move): Sys
    requires Ready(y) && Enabled(y, m)
  {
    match m
    case Begins(now, call) =>
      (match S.Begin(y.sess, now, call)
       case Refused(s, code) => y.(sess := s, allocations := y.allocations + (if S.Usable(y.sess) then 1 else 0))
       case Ready(s, sequence, wire) =>
         y.(sess := s, phase := Held(sequence), call := call, wire := wire, allocations := y.allocations + 1))
    case Abandons => y.(sess := S.Release(y.sess, y.phase.sequence), phase := Idle)
    case Writes =>
      y.(phase := Written(|y.asked|, y.phase.sequence), asked := y.asked + [y.call], written := y.written + [y.wire],
         unanswered := y.unanswered + {|y.asked|})
    case WriteFails => y.(sess := S.Poison(y.sess), phase := Idle)
    case Concludes =>
      var c := S.Conclude(y.sess, y.phase.sequence);
      y.(sess := c.s, phase := Idle,
         results := y.results + (if c.body.Some? then [Result(y.phase.request, c.body.value)] else []))
    case Elsewhere(e) => y.(sess := S.Step(y.sess, e))
    case ClosesLast => y.(sess := y.sess.(stopped := true))
    case Adapter(e) =>
      y.(emitted := y.emitted + [e], unanswered := if e.Answer? then y.unanswered - {e.request} else y.unanswered)
    case Arrives(n) =>
      y.(sess := S.Receive(y.sess, Stream(y.emitted)[y.taken..y.taken + n]), taken := y.taken + n)
  }

  // ---------------------------------------------------------------- what every move keeps

  // How many of the emitted frames the decoder has taken out of the stream.
  ghost function Decoded(y: Sys): nat
    requires Ready(y)
  {
    |Codec.Deframe(Stream(y.emitted)[..y.taken]).frames|
  }

  ghost predicate StreamInv(y: Sys)
    requires Ready(y)
  {
    && y.sess.buffer == Codec.Deframe(Stream(y.emitted)[..y.taken]).rest
    && Decoded(y) <= |y.emitted|
  }

  ghost predicate AnswerInv(y: Sys) {
    && (forall i :: 0 <= i < |y.emitted| && y.emitted[i].Answer? ==>
          y.emitted[i].request < |y.asked| && y.emitted[i].request !in y.unanswered)
    && (forall i, j :: 0 <= i < j < |y.emitted| && y.emitted[i].Answer? && y.emitted[j].Answer? ==>
          y.emitted[i].request != y.emitted[j].request)
    && (forall k :: k in y.unanswered ==> k < |y.asked|)
  }

  // On a usable session nothing is outstanding but the command in flight: no other request can still be
  // answered, and no other answer is still on the wire.
  ghost predicate OnlyCurrent(y: Sys)
    requires Ready(y)
  {
    S.Usable(y.sess) ==>
      && (forall k :: k in y.unanswered ==> y.phase.Written? && k == y.phase.request)
      && (forall i :: Decoded(y) <= i < |y.emitted| && y.emitted[i].Answer? ==>
            y.phase.Written? && y.emitted[i].request == y.phase.request)
  }

  // Among the first n frames the adapter emitted is its answer to this request, with this body.
  ghost predicate AnsweredIn(y: Sys, n: nat, request: nat, body: Bytes) {
    exists i :: 0 <= i < |y.emitted| && i < n && y.emitted[i] == Answer(request, body)
  }

  ghost predicate AnsweredBy(y: Sys, request: nat, body: Bytes) {
    AnsweredIn(y, |y.emitted|, request, body)
  }

  ghost predicate ResponseInv(y: Sys)
    requires Ready(y)
  {
    S.Usable(y.sess) ==>
      && (y.phase.Held? ==> y.sess.response.None?)
      && (y.phase.Written? && y.sess.response.Some? ==>
            AnsweredIn(y, Decoded(y), y.phase.request, y.sess.response.value))
  }

  ghost predicate SequenceInv(y: Sys) {
    && y.sess.sequence == S.Rotation(y.allocations)
    && |y.sess.used.Keys| <= 1
    && (y.phase.Idle? ==> y.sess.pending == 0 && (S.Usable(y.sess) ==> y.sess.used.Keys == {}))
    && (!y.phase.Idle? ==>
          && 1 <= y.phase.sequence <= 255
          && y.sess.pending == y.phase.sequence && y.sess.used.Keys == {y.phase.sequence})
  }

  ghost predicate ResultInv(y: Sys) {
    && (forall r :: r in y.results ==> r.request < |y.asked| && AnsweredBy(y, r.request, r.body))
    && (forall i, j :: 0 <= i < j < |y.results| ==> y.results[i].request < y.results[j].request)
    && (y.phase.Written? ==> y.phase.request == |y.asked| - 1
                             && forall r :: r in y.results ==> r.request < y.phase.request)
  }

  ghost predicate Inv(y: Sys)
    ensures Inv(y) ==> Ready(y)
  {
    && S.Valid(y.sess) && Ready(y)
    && StreamInv(y) && AnswerInv(y) && OnlyCurrent(y) && ResponseInv(y) && SequenceInv(y) && ResultInv(y)
  }

  lemma StartInv(call: S.Call)
    ensures Inv(Start(call))
  {
    assert Stream([]) == [];
  }

  // ---------------------------------------------------------------- the adapter's moves

  lemma StreamGrows(es: seq<Emission>, e: Emission)
    requires Sendable(es) && Emittable(e)
    ensures Sendable(es + [e]) && Stream(es + [e]) == Stream(es) + Codec.Encode(e.body)
  {
    BodiesEncodable(es);
    assert Bodies(es + [e]) == Bodies(es) + [e.body];
    Codec.EncodeAllAppend(Bodies(es), [e.body]);
    assert [e.body][1..] == [];
    assert Codec.Encode(e.body) + [] == Codec.Encode(e.body);
  }

  lemma AdapterInv(y: Sys, e: Emission)
    requires Inv(y) && Enabled(y, Adapter(e))
    ensures Inv(Next(y, Adapter(e)))
  {
    hide Codec.Deframe, Stream, S.Valid, S.Usable;
    StreamGrows(y.emitted, e);
    var z := Next(y, Adapter(e));
    assert Stream(z.emitted)[..y.taken] == Stream(y.emitted)[..y.taken];
    assert Decoded(z) == Decoded(y);
    assert forall i :: 0 <= i < |y.emitted| ==> z.emitted[i] == y.emitted[i];
    forall n: nat, k, b | AnsweredIn(y, n, k, b)
      ensures AnsweredIn(z, n, k, b) && AnsweredBy(z, k, b)
    {
      var i :| 0 <= i < |y.emitted| && i < n && y.emitted[i] == Answer(k, b);
      assert z.emitted[i] == Answer(k, b);
    }
  }

  // ---------------------------------------------------------------- octets arriving

  // A response, when one is found among frames the adapter emitted, is one of its answers.
  lemma {:induction false} OnlyAnswersAnswer(s: S.Sess, es: seq<Emission>)
    requires S.Shaped(s) && Sendable(es)
    ensures var v := S.DeliverAll(s, Bodies(es));
            v.response != s.response ==>
              exists i :: 0 <= i < |es| && es[i].Answer? && v.response == Some(es[i].body)
    decreases |es|
  {
    hide Can.Step;
    if es != [] {
      var s1 := S.Deliver(s, es[0].body);
      assert Bodies(es)[1..] == Bodies(es[1..]);
      OnlyAnswersAnswer(s1, es[1..]);
      var v := S.DeliverAll(s, Bodies(es));
      if v.response != s.response {
        if v.response == s1.response {
          assert es[0].Answer? && v.response == Some(es[0].body);
        } else {
          var i :| 0 <= i < |es[1..]| && es[1..][i].Answer? && v.response == Some(es[1..][i].body);
          assert es[i + 1] == es[1..][i];
        }
      }
    }
  }

  // The frames a chunk completes are the next ones the adapter emitted.
  lemma ChunkDecodes(y: Sys, n: nat)
    requires Inv(y) && Enabled(y, Arrives(n))
    ensures var stream := Stream(y.emitted);
            var p := Codec.Deframe(y.sess.buffer + stream[y.taken..y.taken + n]);
            var d := Decoded(y);
            && Codec.Deframe(stream[..y.taken + n]).rest == p.rest
            && |Codec.Deframe(stream[..y.taken + n]).frames| == d + |p.frames| <= |y.emitted|
            && p.frames == Bodies(y.emitted[d..d + |p.frames|])
  {
    hide Codec.Deframe, S.Valid, Codec.EncodeAll;
    var stream := Stream(y.emitted);
    BodiesEncodable(y.emitted);
    var chunk := stream[y.taken..y.taken + n];
    Codec.DeframeAppend(stream[..y.taken], chunk);
    assert stream[..y.taken] + chunk == stream[..y.taken + n];
    Codec.CutStreamDecodes(Bodies(y.emitted), y.taken + n);
    Codec.CutStreamDecodes(Bodies(y.emitted), y.taken);
  }

  lemma ArrivesFinds(y: Sys, n: nat)
    requires Inv(y) && Enabled(y, Arrives(n))
    ensures var z := Next(y, Arrives(n));
            && Ready(z) && StreamInv(z) && Decoded(y) <= Decoded(z)
            && z.sess == y.sess.(buffer := z.sess.buffer, receiver := z.sess.receiver, response := z.sess.response)
            && (y.sess.response.Some? ==> z.sess.response == y.sess.response)
            && (z.sess.response != y.sess.response ==>
                  exists i :: Decoded(y) <= i < Decoded(z) && y.emitted[i].Answer?
                              && z.sess.response == Some(y.emitted[i].body))
  {
    hide Codec.Deframe, Stream, S.Valid, S.DeliverAll;
    var z, d := Next(y, Arrives(n)), Decoded(y);
    var chunk := Stream(y.emitted)[y.taken..y.taken + n];
    ChunkDecodes(y, n);
    S.ReceiveValid(y.sess, chunk);
    S.ValidShaped(z.sess);
    var p := Codec.Deframe(y.sess.buffer + chunk);
    SliceFinds(y.emitted, d, d + |p.frames|, y.sess.(buffer := p.rest));
    S.ResponseStays(y.sess.(buffer := p.rest), p.frames);
  }

  lemma SliceFinds(es: seq<Emission>, from: nat, to: nat, s: S.Sess)
    requires S.Shaped(s) && Sendable(es) && from <= to <= |es|
    ensures var v := S.DeliverAll(s, Bodies(es[from..to]));
            v.response != s.response ==>
              exists i :: from <= i < to && es[i].Answer? && v.response == Some(es[i].body)
  {
    hide S.DeliverAll;
    var part := es[from..to];
    OnlyAnswersAnswer(s, part);
    var v := S.DeliverAll(s, Bodies(part));
    if v.response != s.response {
      var i :| 0 <= i < |part| && part[i].Answer? && v.response == Some(part[i].body);
      assert es[from + i] == part[i];
    }
  }

  lemma ArrivesInv(y: Sys, n: nat)
    requires Inv(y) && Enabled(y, Arrives(n))
    ensures Inv(Next(y, Arrives(n)))
  {
    hide Codec.Deframe, Stream, S.Valid, S.Receive, S.Rotation;
    var z, d := Next(y, Arrives(n)), Decoded(y);
    S.ReceiveValid(y.sess, Stream(y.emitted)[y.taken..y.taken + n]);
    ArrivesFinds(y, n);
    SameEmissions(y, z);
    LaterToo(z, d, Decoded(z));
    if z.sess.response != y.sess.response && S.Usable(z.sess) {
      var i :| d <= i < Decoded(z) && y.emitted[i].Answer? && z.sess.response == Some(y.emitted[i].body);
      assert y.emitted[i] == Answer(y.phase.request, z.sess.response.value);
    }
  }

  lemma SameEmissions(y: Sys, z: Sys)
    requires z.emitted == y.emitted
    ensures forall n: nat, k, b :: AnsweredIn(y, n, k, b) <==> AnsweredIn(z, n, k, b)
  {
  }

  lemma LaterToo(y: Sys, m: nat, n: nat)
    requires m <= n
    ensures forall k, b :: AnsweredIn(y, m, k, b) ==> AnsweredIn(y, n, k, b)
  {
  }

  // ---------------------------------------------------------------- the session's moves

  // With nothing held, the first number tried is free.
  lemma FirstProbe(s: S.Sess, now: nat)
    requires s.used.Keys == {}
    ensures S.Probe(s, s.sequence, now, 255) == (s.sequence % 255 + 1, true)
  {
  }

  lemma RotationNext(k: nat)
    ensures S.Rotation(k) % 255 + 1 == S.Rotation(k + 1)
  {
    if k > 0 { S.NextResidue(k - 1); }
  }

  lemma BeginsInv(y: Sys, now: nat, call: S.Call)
    requires Inv(y) && Enabled(y, Begins(now, call))
    ensures Inv(Next(y, Begins(now, call)))
    ensures S.Usable(y.sess) ==> Next(y, Begins(now, call)).sess.sequence == S.Rotation(y.allocations + 1)
    ensures S.Usable(y.sess) && S.Sendable(call) ==> Next(y, Begins(now, call)).phase.Held?
  {
    hide Codec.Deframe, Stream, Can.Inv, S.Probe, S.Rotation;
    var z := Next(y, Begins(now, call));
    S.BeginValid(y.sess, now, call);
    if S.Usable(y.sess) {
      FirstProbe(y.sess, now);
      RotationNext(y.allocations);
    }
    SameEmissions(y, z);
  }

  lemma BeginsHeld(y: Sys, now: nat, call: S.Call)
    requires Inv(y) && Enabled(y, Begins(now, call))
    ensures var z := Next(y, Begins(now, call));
            z.phase.Held? ==> z.allocations == y.allocations + 1 && z.phase.sequence == S.Rotation(z.allocations)
    ensures Next(y, Begins(now, call)).allocations >= y.allocations
  {
    hide Codec.Deframe, Stream, Can.Inv, S.Probe, S.Rotation;
    if S.Usable(y.sess) {
      FirstProbe(y.sess, now);
      RotationNext(y.allocations);
    }
  }

  lemma ConcludesInv(y: Sys)
    requires Inv(y) && Enabled(y, Concludes)
    ensures Inv(Next(y, Concludes))
  {
    hide Codec.Deframe, Stream, S.Valid, S.Conclude, S.Rotation;
    var z := Next(y, Concludes);
    var c := S.Conclude(y.sess, y.phase.sequence);
    S.ConcludeValid(y.sess, y.phase.sequence);
    S.ValidShaped(c.s);
    SameEmissions(y, z);
    if c.body.Some? {
      var i :| 0 <= i < |y.emitted| && i < Decoded(y) && y.emitted[i] == Answer(y.phase.request, c.body.value);
      AnsweredEarly(y, i);
    }
    LaterToo(y, Decoded(y), |y.emitted|);
    assert (y.sess.used - {y.phase.sequence}).Keys == {};
  }

  // The frame that answered the current command has been decoded, so no answer is still on the wire.
  lemma AnsweredEarly(y: Sys, i: nat)
    requires Inv(y) && S.Usable(y.sess) && y.phase.Written? && i < Decoded(y)
    requires y.emitted[i].Answer? && y.emitted[i].request == y.phase.request
    ensures forall j :: Decoded(y) <= j < |y.emitted| ==> !y.emitted[j].Answer?
    ensures y.unanswered == {}
  {
  }

  lemma WritesInv(y: Sys)
    requires Inv(y) && Enabled(y, Writes)
    ensures Inv(Next(y, Writes))
  {
    hide Codec.Deframe, Stream, S.Valid, S.Rotation;
    SameEmissions(y, Next(y, Writes));
  }

  // The moves of the session that neither start, answer nor hand anything to the transport.
  lemma QuietInv(y: Sys, m: Move)
    requires Inv(y) && Enabled(y, m) && (m.Abandons? || m.WriteFails? || m.Elsewhere? || m.ClosesLast?)
    ensures Inv(Next(y, m))
  {
    hide Codec.Deframe, Stream, Can.Inv, S.Rotation, Can.Step, S.Step;
    var z := Next(y, m);
    SameEmissions(y, z);
    match m
    case Abandons => assert (y.sess.used - {y.phase.sequence}).Keys == {};
    case WriteFails => S.PoisonValid(y.sess);
    case Elsewhere(e) => ElsewhereInv(y, e);
    case ClosesLast =>
  }

  lemma ElsewhereInv(y: Sys, e: S.Event)
    requires Inv(y) && Enabled(y, Elsewhere(e))
    ensures Inv(Next(y, Elsewhere(e)))
  {
    hide Codec.Deframe, Stream, Can.Inv, S.Rotation, S.Step;
    var z := Next(y, Elsewhere(e));
    S.StepValid(y.sess, e);
    S.StepKeeps(y.sess, e);
    OthersKeepBuffer(y.sess, e);
    SameEmissions(y, z);
  }

  lemma OthersKeepBuffer(s: S.Sess, e: S.Event)
    requires S.Shaped(s) && S.Proper(e) && !e.Bytes?
    ensures S.Step(s, e).buffer == s.buffer
  {
  }

  lemma NextInv(y: Sys, m: Move)
    requires Inv(y) && Enabled(y, m)
    ensures Inv(Next(y, m))
  {
    hide Inv, Next;
    match m
    case Begins(now, call) => BeginsInv(y, now, call);
    case Writes => WritesInv(y);
    case Concludes => ConcludesInv(y);
    case Adapter(e) => AdapterInv(y, e);
    case Arrives(n) => ArrivesInv(y, n);
    case _ => QuietInv(y, m);
  }

  // ---------------------------------------------------------------- whole runs

  // y can be reached from the start by these moves, each enabled when it is made.
  ghost predicate Reaches(y0: Sys, moves: seq<Move>, y: Sys)
    decreases |moves|
  {
    if moves == [] then y == y0
    else Ready(y0) && Enabled(y0, moves[0]) && Reaches(Next(y0, moves[0]), moves[1..], y)
  }

  lemma {:induction false} ReachesInv(y0: Sys, moves: seq<Move>, y: Sys)
    requires Inv(y0) && Reaches(y0, moves, y)
    ensures Inv(y)
    decreases |moves|
  {
    hide Inv, Next;
    if moves != [] {
      NextInv(y0, moves[0]);
      ReachesInv(Next(y0, moves[0]), moves[1..], y);
    }
  }

  // No response mix-up, in any run: a body a command returned is the adapter's answer to that very request,
  // different commands returned different answers, and each frame of the adapter's answers one request only.
  lemma NoMixUp(call: S.Call, moves: seq<Move>, y: Sys)
    requires Reaches(Start(call), moves, y)
    ensures forall r :: r in y.results ==> AnsweredBy(y, r.request, r.body)
    ensures forall i, j :: 0 <= i < j < |y.results| ==> y.results[i].request < y.results[j].request
    ensures forall i, j :: 0 <= i < j < |y.emitted| && y.emitted[i].Answer? && y.emitted[j].Answer? ==>
              y.emitted[i].request != y.emitted[j].request
  {
    StartInv(call);
    ReachesInv(Start(call), moves, y);
  }

  // Sequence numbers never run out: in any run at most one is held, on a usable idle session none, and the next
  // command takes the next number in rotation at its first try.
  lemma NeverExhausted(call: S.Call, moves: seq<Move>, y: Sys, now: nat, next: S.Call)
    requires Reaches(Start(call), moves, y)
    ensures |y.sess.used.Keys| <= 1 && y.sess.sequence == S.Rotation(y.allocations)
    ensures S.Usable(y.sess) && y.phase.Idle? ==>
              && y.sess.used == map[]
              && S.Probe(y.sess, y.sess.sequence, now, 255) == (S.Rotation(y.allocations + 1), true)
              && (S.Sendable(next) ==> S.Begin(y.sess, now, next).Ready?)
    ensures S.Begin(y.sess, now, next).Refused? && y.phase.Idle? ==>
              S.Begin(y.sess, now, next).code != S.ERR_EXCEEDED_LIMIT
  {
    hide S.Rotation, S.Probe, Codec.Deframe, Stream, Can.Inv, Next, Reaches;
    StartInv(call);
    ReachesInv(Start(call), moves, y);
    if S.Usable(y.sess) && y.phase.Idle? {
      FirstProbe(y.sess, now);
      RotationNext(y.allocations);
    }
  }

  // Any 255 allocations in a row are of different numbers.
  lemma RotationDistinct(a: nat, b: nat)
    requires 0 < a < b < a + 255
    ensures 1 <= S.Rotation(a) <= 255 && S.Rotation(a) != S.Rotation(b)
  {
    var m, n := a - 1, b - 1;
    assert m == 255 * (m / 255) + m % 255 && n == 255 * (n / 255) + n % 255;
  }

  // ---------------------------------------------------------------- an exchange that succeeds

  // The body echoes the request in the written frame: its number, and its two ends the other way round.
  predicate Echoes(wire: Bytes, body: Bytes) {
    var p := Codec.Deframe(wire);
    && |p.frames| == 1 && |p.frames[0]| >= 12 && |body| >= 8
    && var request := p.frames[0];
    && Le16(body, 0) == Le16(request, 2) && Le16(body, 2) == Le16(request, 0) && Le16(body, 6) == Le16(request, 6)
  }

  predicate Fitting(wire: Bytes, body: Bytes) {
    Codec.Encodable(body) && |body| >= 20 && S.ResponseOpcode(Le16(body, 4)) && Echoes(wire, body)
  }

  // Whatever has gone before, on an idle usable session with nothing left on the wire a command whose answer
  // echoes the frame it wrote returns that answer, and the session is idle and usable again.
  lemma ExchangeCompletes(y: Sys, now: nat, call: S.Call, body: Bytes) returns (z: Sys)
    requires Inv(y) && y.phase.Idle? && S.Usable(y.sess) && y.taken == |Stream(y.emitted)|
    requires S.Sendable(call) && Fitting(Next(y, Begins(now, call)).wire, body)
    ensures Reaches(y, [Begins(now, call), Writes, Adapter(Answer(|y.asked|, body)), Arrives(|Codec.Encode(body)|),
                        Concludes], z)
    ensures z.results == y.results + [Result(|y.asked|, body)] && z.asked == y.asked + [call]
    ensures Inv(z) && z.phase.Idle? && S.Usable(z.sess) && z.taken == |Stream(z.emitted)|
  {
    hide Inv, Next, Reaches, S.Receive, Stream, Codec.Encode, Codec.Deframe, S.Rotation;
    var y1 := Next(y, Begins(now, call));
    AfterBegin(y, now, call);
    InvReady(y);
    var y2 := Next(y1, Writes);
    AfterWrite(y1);
    var y3 := Next(y2, Adapter(Answer(|y.asked|, body)));
    AfterAnswer(y2, body);
    var y4 := Next(y3, Arrives(|Codec.Encode(body)|));
    AfterArrival(y2, y3, body);
    z := Next(y4, Concludes);
    AfterConclude(y4, body);
    FiveSteps(y, Begins(now, call), Writes, Adapter(Answer(|y.asked|, body)), Arrives(|Codec.Encode(body)|),
              Concludes);
  }

  lemma InvReady(y: Sys)
    requires Inv(y)
    ensures Ready(y)
  {
  }

  lemma AfterBegin(y: Sys, now: nat, call: S.Call)
    requires Inv(y) && y.phase.Idle? && S.Usable(y.sess) && S.Sendable(call)
    ensures var z := Next(y, Begins(now, call));
            && Inv(z) && z.phase == Held(S.Rotation(y.allocations + 1)) && z.phase.sequence > 0 && S.Usable(z.sess)
            && z.sess == y.sess.(sequence := z.phase.sequence, source := call.destination, pending := z.phase.sequence,
                                 minimum := if call.opcode == 0x100 then 12 else 20, response := None,
                                 used := z.sess.used)
            && z == y.(sess := z.sess, phase := z.phase, call := call, wire := z.wire, allocations := y.allocations + 1)
            && S.Carries(z.wire, z.phase.sequence, call)
  {
    hide Codec.Deframe, Stream, Can.Inv, S.Probe, S.Rotation;
    BeginsInv(y, now, call);
    S.BeginWrites(y.sess, now, call);
    FirstProbe(y.sess, now);
    RotationNext(y.allocations);
  }

  lemma AfterWrite(y: Sys)
    requires Inv(y) && y.phase.Held?
    ensures var z := Next(y, Writes);
            && Inv(z) && |y.asked| in z.unanswered
            && z == y.(phase := Written(|y.asked|, y.phase.sequence), asked := y.asked + [y.call],
                       written := y.written + [y.wire], unanswered := z.unanswered)
  {
    hide Inv;
    WritesInv(y);
  }

  lemma AfterAnswer(y: Sys, body: Bytes)
    requires Inv(y) && y.phase.Written? && y.phase.request in y.unanswered && Codec.Encodable(body)
    ensures var z := Next(y, Adapter(Answer(y.phase.request, body)));
            && Inv(z) && z.sess == y.sess && Stream(z.emitted) == Stream(y.emitted) + Codec.Encode(body)
            && z == y.(emitted := z.emitted, unanswered := z.unanswered)
  {
    hide Inv;
    AdapterInv(y, Answer(y.phase.request, body));
    InvReady(y);
    StreamGrows(y.emitted, Answer(y.phase.request, body));
  }

  lemma AfterArrival(y: Sys, z: Sys, body: Bytes)
    requires Inv(y) && Inv(z) && y.taken == |Stream(y.emitted)| && Codec.Encodable(body)
    requires z.sess == y.sess && z.taken == y.taken && Stream(z.emitted) == Stream(y.emitted) + Codec.Encode(body)
    requires S.Answers(y.sess, body)
    ensures Enabled(z, Arrives(|Codec.Encode(body)|))
    ensures var v := Next(z, Arrives(|Codec.Encode(body)|));
            && Inv(v) && v.taken == |Stream(v.emitted)| && v == z.(sess := v.sess, taken := v.taken)
            && v.sess == z.sess.(buffer := v.sess.buffer, receiver := v.sess.receiver, response := Some(body))
  {
    hide Codec.Deframe, S.Valid, S.Answers, Can.Step, Codec.Encode;
    var n := |Codec.Encode(body)|;
    BodiesEncodable(y.emitted);
    Codec.EncodedStreamDecodes(Bodies(y.emitted));
    assert Stream(y.emitted)[..y.taken] == Stream(y.emitted);
    assert Stream(z.emitted)[z.taken..z.taken + n] == Codec.Encode(body);
    OneFrame(y.sess, body);
    ArrivesInv(z, n);
  }

  lemma OneFrame(s: S.Sess, body: Bytes)
    requires S.Shaped(s) && s.buffer == [] && Codec.Encodable(body) && S.Answers(s, body)
    ensures S.Receive(s, Codec.Encode(body))
         == s.(receiver := S.Told(s.receiver, Can.EReceive(body)), response := Some(body))
  {
    hide Codec.Deframe, Can.Step, Codec.Encode, S.Answers;
    Codec.EncodeDecodes(body, []);
    assert s.buffer + Codec.Encode(body) == Codec.Encode(body) + [];
    NothingMore();
    assert [body] + [] == [body] && s.(buffer := []) == s;
    var v := S.Deliver(s, body);
    assert [body][1..] == [] && S.DeliverAll(v, []) == v;
  }

  lemma NothingMore()
    ensures Codec.Deframe([]) == Codec.Parse([], 0, [])
  {
  }

  lemma AfterConclude(y: Sys, body: Bytes)
    requires Inv(y) && y.phase.Written? && S.Usable(y.sess) && y.sess.response == Some(body)
    ensures var z := Next(y, Concludes);
            && Inv(z) && z.phase.Idle? && S.Usable(z.sess)
            && z.results == y.results + [Result(y.phase.request, body)]
            && z.asked == y.asked && z.taken == y.taken && z.emitted == y.emitted
  {
    hide Inv;
    InvReady(y);
    ConcludesInv(y);
  }

  lemma FiveSteps(y: Sys, a: Move, b: Move, c: Move, d: Move, e: Move)
    requires Inv(y) && Enabled(y, a)
    requires var y1 := Next(y, a);
             && Inv(y1) && Enabled(y1, b)
             && var y2 := Next(y1, b);
             && Inv(y2) && Enabled(y2, c)
             && var y3 := Next(y2, c);
             && Inv(y3) && Enabled(y3, d)
             && var y4 := Next(y3, d);
             && Inv(y4) && Enabled(y4, e)
    ensures Reaches(y, [a, b, c, d, e], Next(Next(Next(Next(Next(y, a), b), c), d), e))
  {
    hide Next, Inv;
    var y1 := Next(y, a);
    var y2 := Next(y1, b);
    var y3 := Next(y2, c);
    var y4 := Next(y3, d);
    var z := Next(y4, e);
    assert [a, b, c, d, e][1..] == [b, c, d, e] && [b, c, d, e][1..] == [c, d, e];
    assert [c, d, e][1..] == [d, e] && [d, e][1..] == [e] && [e][1..] == [];
    assert Reaches(z, [], z);
    assert Reaches(y4, [e], z);
    assert Reaches(y3, [d, e], z);
    assert Reaches(y2, [c, d, e], z);
    assert Reaches(y1, [b, c, d, e], z);
  }
}
