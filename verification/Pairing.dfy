// src/can.cpp: what the pairing of confirmations with writes guarantees over whole runs.
module Pairing {
  import opened Bytes
  import opened Can
  import S = Session

  // ---------------------------------------------------------------- the accounts of each call

  // The records of one call still waiting for their confirmation.
  function Waiting(pending: seq<Record>, call: nat): nat {
    if pending == [] then 0
    else Waiting(pending[..|pending| - 1], call) + (if pending[|pending| - 1].call == Some(call) then 1 else 0)
  }

  lemma {:induction false} WaitingIsCount(noted: seq<Write>, open: seq<nat>, pending: seq<Record>, call: nat)
    requires Below(open, |noted|) && |open| == |pending|
    requires forall k :: 0 <= k < |open| ==> pending[k] == noted[open[k]].record
    ensures Waiting(pending, call) == Count(noted, open, call)
  {
    if open != [] {
      WaitingIsCount(noted, open[..|open| - 1], pending[..|open| - 1], call);
    }
  }

  lemma {:induction false} CountConcat(noted: seq<Write>, p: seq<nat>, o: seq<nat>, call: nat)
    requires Below(p, |noted|) && Below(o, |noted|)
    ensures Count(noted, p + o, call) == Count(noted, p, call) + Count(noted, o, call)
  {
    if o == [] {
      assert p + o == p;
    } else {
      var early, last := o[..|o| - 1], o[|o| - 1];
      CountConcat(noted, p, early, call);
      CountSnoc(noted, p + early, last, call);
      assert p + o == (p + early) + [last];
    }
  }

  lemma {:induction false} NotedGrows(noted: seq<Write>, m: nat, n: nat, call: nat)
    requires m <= n <= |noted|
    ensures Noted(noted[..m], call) <= Noted(noted[..n], call)
    decreases n
  {
    if m < n {
      assert noted[..n][..n - 1] == noted[..n - 1];
      NotedGrows(noted, m, n - 1, call);
    }
  }

  // Distinct writes of a call are no more than the call has noted.
  lemma {:induction false} CountBound(noted: seq<Write>, at: seq<nat>, m: nat, call: nat)
    requires m <= |noted| && Below(at, m)
    requires forall i, j :: 0 <= i < j < |at| ==> at[i] < at[j]
    ensures Count(noted, at, call) <= Noted(noted[..m], call)
  {
    if at != [] {
      var early, last := at[..|at| - 1], at[|at| - 1];
      CountBound(noted, early, last, call);
      assert noted[..last + 1][..last] == noted[..last];
      NotedGrows(noted, last + 1, m, call);
    }
  }

  // In every reachable state, for every call: what is confirmed and what still waits are different writes, so
  // together they are no more than what was noted.
  lemma CallAccounts(w: World, call: nat)
    requires Inv(w)
    ensures Confirmed(w.rx, call) + Waiting(w.rx.pending, call) <= Noted(w.log.noted, call)
  {
    var noted, p, o := w.log.noted, w.log.paired, w.log.open;
    WaitingIsCount(noted, o, w.rx.pending, call);
    CountConcat(noted, p, o, call);
    CountBound(noted, p + o, |noted|, call);
    assert noted[..|noted|] == noted;
    assert Confirmed(w.rx, call) == Count(noted, p, call);
  }

  function ConfirmedSum(rx: Rx, calls: seq<nat>): nat {
    if calls == [] then 0 else Confirmed(rx, calls[0]) + ConfirmedSum(rx, calls[1..])
  }

  ghost function CountSum(noted: seq<Write>, at: seq<nat>, calls: seq<nat>): nat
    requires Below(at, |noted|)
    decreases |calls|
  {
    if calls == [] then 0 else Count(noted, at, calls[0]) + CountSum(noted, at, calls[1..])
  }

  lemma {:induction false} CountSumSnoc(noted: seq<Write>, at: seq<nat>, i: nat, calls: seq<nat>)
    requires Below(at, |noted|) && i < |noted| && Distinct(calls)
    ensures CountSum(noted, at + [i], calls) <= CountSum(noted, at, calls) + 1
    ensures (forall c :: c in calls ==> noted[i].record.call != Some(c)) ==>
              CountSum(noted, at + [i], calls) == CountSum(noted, at, calls)
    decreases |calls|
  {
    if calls != [] {
      CountSnoc(noted, at, i, calls[0]);
      CountSumSnoc(noted, at, i, calls[1..]);
    }
  }

  lemma {:induction false} CountSumBound(noted: seq<Write>, at: seq<nat>, calls: seq<nat>)
    requires Below(at, |noted|) && Distinct(calls)
    ensures CountSum(noted, at, calls) <= |at|
    decreases |at|
  {
    if at == [] {
      CountSumNothing(noted, calls);
    } else {
      var early := at[..|at| - 1];
      CountSumBound(noted, early, calls);
      CountSumSnoc(noted, early, at[|at| - 1], calls);
      assert at == early + [at[|at| - 1]];
    }
  }

  lemma {:induction false} CountSumNothing(noted: seq<Write>, calls: seq<nat>)
    ensures CountSum(noted, [], calls) == 0
    decreases |calls|
  {
    if calls != [] { CountSumNothing(noted, calls[1..]); }
  }

  lemma {:induction false} SumsAgree(w: World, calls: seq<nat>)
    requires Inv(w)
    ensures ConfirmedSum(w.rx, calls) == CountSum(w.log.noted, w.log.paired, calls)
    decreases |calls|
  {
    if calls != [] {
      assert Confirmed(w.rx, calls[0]) == Count(w.log.noted, w.log.paired, calls[0]);
      SumsAgree(w, calls[1..]);
    }
  }

  // One confirmation is credited to at most one call.
  lemma CallsShareTransmitted(w: World, calls: seq<nat>)
    requires Inv(w) && Distinct(calls)
    ensures ConfirmedSum(w.rx, calls) <= w.rx.transmitted
  {
    SumsAgree(w, calls);
    CountSumBound(w.log.noted, w.log.paired, calls);
  }

  // ---------------------------------------------------------------- which write a confirmation finds

  ghost predicate SentInOrder(noted: seq<Write>) {
    && (forall k :: 0 <= k < |noted| ==> noted[k].alloc > 0 && noted[k].record.sequence == S.Rotation(noted[k].alloc))
    && (forall i, j :: 0 <= i < j < |noted| ==> noted[i].alloc < noted[j].alloc)
  }

  lemma SameSequence(a: nat, b: nat)
    requires a > 0 && b > 0
    ensures S.Rotation(a) == S.Rotation(b) <==> a % 255 == b % 255
  {
    S.NextResidue(a - 1);
    S.NextResidue(b - 1);
  }

  // Another pending write that answers to write k's sequence number first.
  ghost predicate Rival(w: World, k: nat, j: nat)
    requires k < |w.log.noted|
  {
    && j in w.log.open && j != k && j < |w.log.noted|
    && w.log.noted[j].alloc % 255 == w.log.noted[k].alloc % 255
    && (k in w.log.open ==> j < k)
  }

  // The confirmation of write k is credited to write k, or to nothing when k no longer waits.
  ghost predicate CreditedRightly(w: World, k: nat, timestamp: u32)
    requires |w.log.open| == |w.rx.pending| && k < |w.log.noted|
  {
    Confirm(w, w.log.noted[k].record.sequence, timestamp).log.paired
    == w.log.paired + (if k in w.log.open then [k] else [])
  }

  // Waiting records answer to write k's number exactly when their numbers agree modulo 255.
  lemma WaitingResidues(w: World, k: nat, m: nat)
    requires Inv(w) && SentInOrder(w.log.noted) && k < |w.log.noted| && m < |w.log.open|
    ensures w.log.open[m] < |w.log.noted|
    ensures w.rx.pending[m].sequence == w.log.noted[k].record.sequence
        <==> w.log.noted[w.log.open[m]].alloc % 255 == w.log.noted[k].alloc % 255
  {
    hide S.Rotation;
    SameSequence(w.log.noted[w.log.open[m]].alloc, w.log.noted[k].alloc);
  }

  lemma NoRivalFound(w: World, k: nat)
    requires Inv(w) && SentInOrder(w.log.noted) && k < |w.log.noted|
    requires var i := FindSequence(w.rx.pending, w.log.noted[k].record.sequence, 0);
             i == |w.log.open| || w.log.open[i] == k
    ensures !exists j :: Rival(w, k, j)
    ensures FindSequence(w.rx.pending, w.log.noted[k].record.sequence, 0) == |w.log.open| ==> k !in w.log.open
  {
    hide S.Rotation, SentInOrder;
    var o := w.log.open;
    forall m | 0 <= m < |o|
      ensures w.rx.pending[m].sequence == w.log.noted[k].record.sequence
          <==> w.log.noted[o[m]].alloc % 255 == w.log.noted[k].alloc % 255
    {
      WaitingResidues(w, k, m);
    }
  }

  lemma RivalFound(w: World, k: nat)
    requires Inv(w) && SentInOrder(w.log.noted) && k < |w.log.noted|
    requires var i := FindSequence(w.rx.pending, w.log.noted[k].record.sequence, 0);
             i < |w.log.open| && w.log.open[i] != k
    ensures Rival(w, k, w.log.open[FindSequence(w.rx.pending, w.log.noted[k].record.sequence, 0)])
  {
    hide S.Rotation, SentInOrder;
    var o, i := w.log.open, FindSequence(w.rx.pending, w.log.noted[k].record.sequence, 0);
    WaitingResidues(w, k, i);
    if k in o {
      var m :| 0 <= m < |o| && o[m] == k;
      WaitingResidues(w, k, m);
      assert i < m;
    }
  }

  // A confirmation finds the write that carried its sequence number exactly when no rival write waits.
  lemma PairsExactly(w: World, k: nat, timestamp: u32)
    requires Inv(w) && SentInOrder(w.log.noted) && k < |w.log.noted|
    ensures CreditedRightly(w, k, timestamp) <==> !exists j :: Rival(w, k, j)
  {
    hide Confirm, Offer, Rival, Inv, SentInOrder;
    var s, o, p := w.log.noted[k].record.sequence, w.log.open, w.log.paired;
    ConfirmFrame(w, s, timestamp);
    var i := FindSequence(w.rx.pending, s, 0);
    assert p + [] == p;
    if i == |o| || o[i] == k {
      NoRivalFound(w, k);
    } else {
      RivalFound(w, k);
      assert (p + [o[i]])[|p|] == o[i];
      assert k in o ==> (p + [k])[|p|] == k;
    }
  }

  // So it does whenever fewer than 255 commands have been allocated across the writes still waiting.
  lemma PairsWhenRecent(w: World, k: nat, timestamp: u32)
    requires Inv(w) && SentInOrder(w.log.noted) && k < |w.log.noted|
    requires forall j :: j in w.log.open && j < |w.log.noted| ==>
               -255 < w.log.noted[j].alloc - w.log.noted[k].alloc < 255
    ensures CreditedRightly(w, k, timestamp)
  {
    hide Confirm, S.Rotation;
    PairsExactly(w, k, timestamp);
    forall j: nat | j in w.log.open && j != k && j < |w.log.noted|
      ensures w.log.noted[j].alloc % 255 != w.log.noted[k].alloc % 255
    {
      CloseResidues(w.log.noted[j].alloc, w.log.noted[k].alloc);
    }
    assert !exists j :: Rival(w, k, j);
  }

  lemma CloseResidues(a: nat, b: nat)
    requires a != b && -255 < a - b < 255
    ensures a % 255 != b % 255
  {
    assert a == 255 * (a / 255) + a % 255 && b == 255 * (b / 255) + b % 255;
  }

  // Without that it does not: the first write is never confirmed, 255 commands later its sequence number comes
  // round again, and the second write's confirmation is credited to the first.
  lemma ReuseMispairs(a: Record, b: Record, timestamp: u32)
    requires a.sequence == 1 && b.sequence == 1
    ensures var w := Run(Fresh(CAN), [ENote(Write(a, 1)), ENote(Write(b, 256))]);
            && Inv(w) && SentInOrder(w.log.noted) && |w.log.noted| == 2 && w.log.open == [0, 1]
            && Confirm(w, 1, timestamp).log.paired == [0]
            && !CreditedRightly(w, 1, timestamp)
  {
    hide Run, Confirm, Offer, Echo, Receive;
    var w := TwoNotes(Write(a, 1), Write(b, 256));
    assert Rival(w, 1, 0);
    PairsExactly(w, 1, timestamp);
    ConfirmFrame(w, 1, timestamp);
    assert FindSequence(w.rx.pending, 1, 0) == 0;
  }

  lemma TwoNotes(x: Write, y: Write) returns (w: World)
    ensures w == Run(Fresh(CAN), [ENote(x), ENote(y)]) && Inv(w)
    ensures w.log.noted == [Stored(x), Stored(y)] && w.log.open == [0, 1] && w.log.paired == []
    ensures w.rx.pending == [Stored(x).record, Stored(y).record]
  {
    hide Run, Confirm, Offer, Receive, Inv, Stored;
    w := Note(Note(Fresh(CAN), x), y);
    TwoSteps(Fresh(CAN), ENote(x), ENote(y));
    FreshInv(CAN);
    RunInv(Fresh(CAN), [ENote(x), ENote(y)]);
    assert [] + [Stored(x)] == [Stored(x)] && [Stored(x)] + [Stored(y)] == [Stored(x), Stored(y)];
    assert [] + [0] == [0] && [0] + [1] == [0, 1];
    assert [] + [Stored(x).record] == [Stored(x).record];
    assert [Stored(x).record] + [Stored(y).record] == [Stored(x).record, Stored(y).record];
  }

  lemma TwoSteps(w: World, e: Event, f: Event)
    requires |w.log.open| == |w.rx.pending|
    ensures Run(w, [e, f]) == Step(Step(w, e), f)
  {
    hide Step;
    assert [e, f][1..] == [f] && [f][1..] == [];
    assert Run(w, [e, f]) == Run(Step(w, e), [f]);
    assert Run(Step(w, e), [f]) == Run(Step(Step(w, e), f), []);
  }

  // ---------------------------------------------------------------- taking back a refused write

  // Steps that neither record a write nor take one back: everything the reader thread and other readers do.
  predicate ReaderSide(e: Event) {
    !e.ENote? && !e.EForget?
  }

  lemma StepDropsOldest(w: World, e: Event) returns (i: nat)
    requires |w.log.open| == |w.rx.pending| && ReaderSide(e)
    ensures i <= |w.log.open| && Step(w, e).log.open == w.log.open[i..]
    ensures Step(w, e).log.noted == w.log.noted
  {
    hide Offer, Confirm, Receive;
    i := 0;
    match e
    case EReceive(body) =>
      if Addressed(w.rx, body) && |body| >= 20 && Le16(body, 4) == 10 && Le32(body, 12) == 0x106 {
        ConfirmFrame(w, Le16(body, 6), Le32(body, 16));
        assert Receive(w, body) == Confirm(w, Le16(body, 6), Le32(body, 16)) by { ReceiveConfirms(w, body); }
        var f := FindSequence(w.rx.pending, Le16(body, 6), 0);
        i := if f < |w.rx.pending| then f + 1 else 0;
      } else {
        ReceiveFrame(w, body);
      }
    case EForgetAll => i := |w.log.open|;
    case EStop(code) => i := |w.log.open|;
    case _ =>
  }

  lemma ReceiveConfirms(w: World, body: Bytes)
    requires |w.log.open| == |w.rx.pending|
    requires Addressed(w.rx, body) && |body| >= 20 && Le16(body, 4) == 10 && Le32(body, 12) == 0x106
    ensures Receive(w, body) == Confirm(w, Le16(body, 6), Le32(body, 16))
  {
  }

  lemma {:induction false} RunDropsOldest(w: World, events: seq<Event>) returns (i: nat)
    requires |w.log.open| == |w.rx.pending| && forall e :: e in events ==> ReaderSide(e)
    ensures i <= |w.log.open| && Run(w, events).log.open == w.log.open[i..]
    ensures Run(w, events).log.noted == w.log.noted
    decreases |events|
  {
    if events == [] {
      i := 0;
    } else {
      i := StepDropsOldest(w, events[0]);
      var j := RunDropsOldest(Step(w, events[0]), events[1..]);
      assert w.log.open[i..][j..] == w.log.open[i + j..];
      i := i + j;
    }
  }

  // A write that is noted and then refused, whatever the reader side does in between: taking it back removes
  // that write's record, or nothing because it is no longer there. No other write is touched.
  lemma ForgetTakesBackItsOwn(w: World, write: Write, events: seq<Event>)
    requires Inv(w) && forall e :: e in events ==> ReaderSide(e)
    ensures var n, v := |w.log.noted|, Run(Note(w, write), events);
            && Inv(v) && Inv(Forget(v))
            && (if n in v.log.open
                then v.log.open == Forget(v).log.open + [n] && v.log.noted[n] == Stored(write)
                else v.log.open == [] && Forget(v) == v)
  {
    hide Run, Receive, Offer, Confirm, Inv;
    var u, n := Note(w, write), |w.log.noted|;
    StepInv(w, ENote(write));
    RunInv(u, events);
    var v := Run(u, events);
    StepInv(v, EForget);
    var i := RunDropsOldest(u, events);
    var o, left := u.log.open, v.log.open;
    assert o[|o| - 1] == n && u.log.noted[n] == Stored(write);
    if left != [] {
      assert left[|left| - 1] == n;
      assert left == left[..|left| - 1] + [n];
    }
  }
}
