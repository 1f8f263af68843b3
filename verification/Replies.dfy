// How a session command looks to the device above it: whatever the session does, it comes to one of the three
// replies the device model distinguishes.
module Replies {
  import opened Bytes
  import Codec
  import Can
  import S = Session
  import J = J2534

  predicate Sized(s: S.Sess) {
    s.response.Some? ==> |s.response.value| >= s.minimum
  }

  lemma {:induction false} DeliverAllSized(s: S.Sess, bodies: seq<Bytes>)
    requires S.Shaped(s) && Sized(s)
    ensures Sized(S.DeliverAll(s, bodies)) && S.DeliverAll(s, bodies).minimum == s.minimum
    decreases |bodies|
  {
    hide Can.Step;
    if bodies != [] { DeliverAllSized(S.Deliver(s, bodies[0]), bodies[1..]); }
  }

  lemma {:induction false} RunSized(s: S.Sess, events: seq<S.Event>)
    requires S.Shaped(s) && Sized(s) && forall e :: e in events ==> S.Proper(e)
    ensures Sized(S.Run(s, events)) && S.Run(s, events).minimum == s.minimum
    decreases |events|
  {
    hide Can.Step, Codec.Deframe;
    if events != [] {
      if events[0].Bytes? {
        var p := Codec.Deframe(s.buffer + events[0].bytes);
        DeliverAllSized(s.(buffer := p.rest), p.frames);
      }
      RunSized(S.Step(s, events[0]), events[1..]);
    }
  }

  // applied and granted are the adapter's: whether it acted on a request it never answered, and the handle it
  // gave a new entry.
  function ReplyOf(o: S.Outcome, applied: bool, granted: u32): J.Reply
    requires o.body.Some? ==> |o.body.value| >= 20
    requires o.body.None? ==> o.code > 0
  {
    match o.body
    case Some(b) => J.Answered(Le32(b, 12), |b|, if |b| >= 24 then Le32(b, 20) else granted)
    case None =>
      if o.sent.Some? then J.Lost(applied, granted, o.code)
      else J.Unsent(!S.Usable(o.s), o.code)
  }

  // Every command the device layer sends ends in one of the three replies, and afterwards the device's notion of
  // a usable session is the session's own; so a channel is made uncertain exactly when a failure left the session
  // unusable, and after any other failure nothing was written.
  lemma CommandGivesReply(s: S.Sess, now: nat, call: S.Call, c: S.Script, d: J.Device, cmd: J.Cmd,
                          applied: bool, granted: u32)
    requires S.Valid(s) && S.ProperScript(c) && call.opcode != 0x100 && d.usable == S.Usable(s) && !d.reopen
    ensures var o := S.Command(s, now, call, c);
            && (o.body.Some? ==> |o.body.value| >= 20) && (o.body.None? ==> o.code > 0)
            && var r := ReplyOf(o, applied, granted);
            && J.Send(d, cmd, r).usable == S.Usable(o.s)
            && (J.OnChannel(d, cmd, r).reopen <==> o.body.None? && !S.Usable(o.s))
            && (o.body.None? && S.Usable(o.s) ==> J.OnChannel(d, cmd, r) == d && o.sent.None?)
  {
    hide J.Apply, S.Command;
    S.FailuresAreCertainOrFinal(s, now, call, c);
    AnswersAreSized(s, now, call, c);
    UnusableStays(s, now, call, c);
  }

  lemma AnswersAreSized(s: S.Sess, now: nat, call: S.Call, c: S.Script)
    requires S.Valid(s) && S.ProperScript(c) && call.opcode != 0x100
    ensures var o := S.Command(s, now, call, c);
            (o.body.Some? ==> |o.body.value| >= 20) && o.code >= 0
  {
    hide Can.Inv, Can.Step, S.Run, S.Probe;
    if c.slot && S.Begin(s, now, call).Ready? {
      var s1 := S.Begin(s, now, call).s;
      RunSized(s1, c.early);
      var s2 := S.Run(s1, c.early);
      RunSized(s2, c.sending);
      RunSized(S.Run(s2, c.sending), c.waiting);
    }
  }

  lemma UnusableStays(s: S.Sess, now: nat, call: S.Call, c: S.Script)
    requires S.Valid(s) && S.ProperScript(c)
    ensures var o := S.Command(s, now, call, c);
            !S.Usable(s) ==> !S.Usable(o.s) && o.body.None? && o.sent.None?
  {
    hide Can.Inv, Can.Step, S.Run, S.Conclude, S.Poison;
    S.BeginValid(s, now, call);
  }
}
