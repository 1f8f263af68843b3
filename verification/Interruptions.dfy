// src/isotp.cpp: what a segmented message of one ID suffers from other frames of the same ID. Good single frames and
// frames of no concern to reassembly leave it alone; this is where the code departs from ISO 15765-2:2016, section
// 9.6, which ends the reassembly when a single frame arrives. Everything else ends it for good.
module Interruptions {
  import opened Bytes
  import opened IsoTp

  // A single frame that carries what it announces, at most seven octets; or neither a single, a first nor a
  // consecutive frame.
  predicate Passenger(f: Bytes) {
    |f| > 4 && ((Kind(f) == 0 && Low(f) <= 7 && 5 + Low(f) <= |f|) || Kind(f) >= 3)
  }

  // What a passenger delivers: a single frame's ID and announced octets.
  function Aside(f: Bytes): seq<Output>
    requires Passenger(f)
  {
    if Kind(f) == 0 then [Output(0, f[..4] + f[5..5 + Low(f)])] else []
  }

  // The frames without the passengers.
  function Strip(own: seq<Bytes>): seq<Bytes> {
    if own == [] then []
    else (if Passenger(own[0]) then [] else [own[0]]) + Strip(own[1..])
  }

  // What the listener is to hear of one segmented message with passengers among its frames: each single frame in
  // its place, the start at the first frame, and the message at the last of its own frames.
  function Expected(own: seq<Bytes>, id: Bytes, message: Bytes): seq<Output>
    requires forall f :: f in own ==> |f| > 4
  {
    if own == [] then []
    else
      (if Passenger(own[0]) then Aside(own[0])
       else if Kind(own[0]) == 1 then [Output(2, id)]
       else if Strip(own[1..]) == [] then [Output(0, message)]
       else [])
      + Expected(own[1..], id, message)
  }

  lemma PassengerPasses(open: Option<Assembly>, f: Bytes)
    requires Passenger(f)
    ensures Converse(open, f) == Progress(open, Aside(f))
  {
  }

  lemma {:induction false} OnlyPassengers(open: Option<Assembly>, own: seq<Bytes>, id: Bytes, message: Bytes)
    requires Strip(own) == [] && forall f :: f in own ==> |f| > 4
    ensures ConverseAll(open, own) == Progress(open, Expected(own, id, message))
  {
    hide Converse, Passenger;
    if own != [] {
      PassengerPasses(open, own[0]);
      OnlyPassengers(open, own[1..], id, message);
    }
  }

  lemma StripHead(own: seq<Bytes>)
    requires own != [] && !Passenger(own[0])
    ensures Strip(own) == [own[0]] + Strip(own[1..])
  {
  }

  lemma PassengerHead(own: seq<Bytes>)
    requires own != [] && Passenger(own[0])
    ensures Strip(own) == Strip(own[1..])
  {
    assert [] + Strip(own[1..]) == Strip(own[1..]);
  }

  lemma {:induction false} MixedFollowers(a: Assembly, id: Bytes, rest: Bytes, pad: Bytes, own: seq<Bytes>)
    requires |id| == 4 && rest != [] && a.sequence < 16 && |a.message| >= 4
    requires 4 + a.expected == |a.message| + |rest|
    requires (forall f :: f in own ==> |f| > 4) && Strip(own) == Followers(id, rest, a.sequence, pad)
    ensures ConverseAll(Some(a), own) == Progress(None, Expected(own, id, a.message + rest))
    decreases |own|
  {
    hide Converse, Passenger, Strip, Followers;
    StripNothing();
    FollowersSplit(id, rest, a.sequence, pad);
    var f, later := own[0], own[1..];
    if Passenger(f) {
      PassengerHead(own);
      PassengerPasses(Some(a), f);
      MixedFollowers(a, id, rest, pad, later);
    } else {
      StripHead(own);
      var segments := Followers(id, rest, a.sequence, pad);
      assert f == segments[0] && Strip(later) == segments[1..];
      if |rest| <= 7 {
        FollowerStep(a, id, rest + pad, |rest|);
        assert (rest + pad)[..|rest|] == rest;
        OnlyPassengers(None, later, id, a.message + rest);
      } else {
        FollowerStep(a, id, rest[..7], |rest|);
        var grown := a.(message := a.message + rest[..7], sequence := (a.sequence + 1) % 16);
        assert grown.message + rest[7..] == a.message + rest;
        MixedFollowers(grown, id, rest[7..], pad, later);
      }
    }
  }

  lemma StripNothing()
    ensures Strip([]) == []
  {
  }

  lemma FollowersSplit(id: Bytes, rest: Bytes, sequence: nat, pad: Bytes)
    requires |id| == 4 && rest != [] && sequence < 16
    ensures var fs := Followers(id, rest, sequence, pad);
            && fs != [] && Kind(fs[0]) == 2
            && (|rest| <= 7 ==> fs[0] == id + [0x20 + sequence] + (rest + pad) && fs[1..] == [])
            && (|rest| > 7 ==> fs[0] == id + [0x20 + sequence] + rest[..7]
                               && fs[1..] == Followers(id, rest[7..], (sequence + 1) % 16, pad) != [])
  {
    if |rest| > 7 { assert Followers(id, rest[7..], (sequence + 1) % 16, pad) != []; }
  }

  lemma {:induction false} MixedSegment(open: Option<Assembly>, id: Bytes, payload: Bytes, pad: Bytes, own: seq<Bytes>)
    requires |id| == 4 && SEGMENTED_MINIMUM <= |payload| <= MAX_MESSAGE
    requires (forall f :: f in own ==> |f| > 4) && Strip(own) == Segment(id, payload, pad)
    ensures ConverseAll(open, own) == Progress(None, Expected(own, id, id + payload))
    decreases |own|
  {
    hide Converse, Passenger, Strip, Followers;
    StripNothing();
    var f, later := own[0], own[1..];
    if Passenger(f) {
      PassengerHead(own);
      PassengerPasses(open, f);
      MixedSegment(open, id, payload, pad, later);
    } else {
      StripHead(own);
      FirstSegment(id, payload, pad);
      FirstConverses(open, f);
      var rest := payload[6..];
      assert Segment(id, payload, pad)[1..] == Followers(id, rest, 1, pad);
      assert ([f] + Strip(later))[1..] == Strip(later);
      MixedFollowers(Begin(f), id, rest, pad, later);
      assert payload == payload[..6] + rest;
      assert (id + payload[..6]) + rest == id + payload;
    }
  }

  // The round trip with company of its own: the segments come in among any other IDs' frames and any passengers
  // of their own ID, into a reassembler in any state. As long as fewer than thirty-two other IDs open a
  // conversation from the first segment on, the listener hears the start, every single frame's own octets where
  // they came, and the whole message at its last segment; and nothing is left behind.
  lemma InterruptedRoundTrip(t: Table, frames: seq<Bytes>, id: Bytes, payload: Bytes, pad: Bytes)
    requires Valid(t) && |id| == 4 && 8 <= |payload| <= 4095 && frames != []
    requires Strip(Of(frames, SourceId(id))) == Segment(id, payload, pad)
    requires frames[0] == Segment(id, payload, pad)[0]
    requires |Openers(frames) - {SourceId(id)}| < 32
    ensures Heard(t, frames, SourceId(id)) == Expected(Of(frames, SourceId(id)), id, id + payload)
    ensures Lookup(TableAfter(t, frames), SourceId(id)) == None
  {
    hide Strip, Expected, Segment, Valid, Kept, Heard, Lookup;
    KeptFromFirst(t, frames, id, payload, pad);
    KeptIsAlone(t, frames, SourceId(id));
    MixedSegment(Lookup(t, SourceId(id)), id, payload, pad, Of(frames, SourceId(id)));
  }

  // ---------------------------------------------------------------- what ends a conversation

  // A single frame that announces more than seven octets or more than it carries; a first frame too short to
  // announce anything, or announcing what a single frame could carry; a consecutive frame without data, or out of
  // turn.
  predicate Breaks(a: Assembly, f: Bytes)
    requires |f| > 4
  {
    || (Kind(f) == 0 && (Low(f) > 7 || 5 + Low(f) > |f|))
    || (Kind(f) == 1 && (|f| < 6 || Low(f) * 256 + f[5] < 8))
    || (Kind(f) == 2 && (|f| < 6 || Low(f) != a.sequence))
  }

  // Those, and nothing else, end a conversation with nothing to show for it.
  lemma EndsExactly(a: Assembly, f: Bytes)
    requires Sound(a) && |f| > 4
    ensures Converse(Some(a), f) == Progress(None, []) <==> Breaks(a, f)
  {
  }

  function Asides(own: seq<Bytes>): seq<Output> {
    if own == [] then []
    else (if Passenger(own[0]) then Aside(own[0]) else []) + Asides(own[1..])
  }

  // With no conversation open, frames of which none starts one deliver single frames and nothing else.
  lemma {:induction false} NothingOpen(own: seq<Bytes>)
    requires forall f :: f in own ==> |f| > 4 && !Opens(f)
    ensures ConverseAll(None, own) == Progress(None, Asides(own))
  {
    if own != [] {
      NothingOpen(own[1..]);
      assert own[0] in own;
    }
  }

  // Once broken, a message is never delivered: whatever other IDs send, and whatever of its own remainder still
  // comes, until its ID starts a new one there is nothing but single frames.
  lemma BrokenStaysBroken(t: Table, f: Bytes, later: seq<Bytes>, id: u32)
    requires Valid(t) && From(f, id) && id !in Openers(later)
    requires Lookup(t, id).Some? && Breaks(Lookup(t, id).value, f)
    ensures Heard(t, [f] + later, id) == Asides(Of(later, id))
  {
    hide Valid, Heard, Asides, Passenger, Of;
    var a := Lookup(t, id).value;
    SoundInTable(t, id);
    EndsExactly(a, f);
    AfterValid(t, f);
    NeverOpenKeeps(After(t, f), later, id);
    KeptIsAlone(After(t, f), later, id);
    NoOpenersOf(later, id);
    NothingOpen(Of(later, id));
    HeardCons(t, f, later, id);
    assert [] + Asides(Of(later, id)) == Asides(Of(later, id));
  }

  lemma SoundInTable(t: Table, id: u32)
    requires Valid(t) && Lookup(t, id).Some?
    ensures Sound(Lookup(t, id).value)
  {
    assert t[Find(t, id)] in t;
  }

  lemma {:induction false} NoOpenersOf(frames: seq<Bytes>, id: u32)
    requires id !in Openers(frames)
    ensures forall f :: f in Of(frames, id) ==> |f| > 4 && !Opens(f)
  {
    if frames != [] {
      assert frames[0] in frames;
      assert forall f :: f in frames[1..] ==> f in frames;
      assert id !in Openers(frames[1..]);
      NoOpenersOf(frames[1..], id);
    }
  }

  lemma HeardCons(t: Table, f: Bytes, later: seq<Bytes>, id: u32)
    requires From(f, id)
    ensures Heard(t, [f] + later, id) == Reported(t, f) + Heard(After(t, f), later, id)
  {
    assert ([f] + later)[1..] == later;
  }
}
