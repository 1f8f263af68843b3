// src/j2534.cpp, PassThruWriteMsgs: which answer a call gives, for every way its messages and its wait can go.
module WriteOutcomes {
  import opened Bytes
  import opened Can
  import opened Pairing
  import opened Writing

  predicate Sound(turns: seq<Turn>, upTo: nat)
    requires upTo <= |turns|
  {
    forall k :: 0 <= k < upTo ==> turns[k].Sent? && turns[k].answer == Accepted
  }

  // All writes of a call being among the confirmed ones is its count having reached the number noted.
  lemma AllIsConfirmed(w: World, call: nat)
    requires Inv(w)
    ensures AllConfirmed(w, call) <==> Confirmed(w.rx, call) >= Noted(w.log.noted, call)
  {
    var noted, p := w.log.noted, w.log.paired;
    assert Confirmed(w.rx, call) == Count(noted, p, call);
    assert noted[..|noted|] == noted;
    if AllConfirmed(w, call) { CountAll(noted, p, |noted|, call); }
    if Confirmed(w.rx, call) >= Noted(noted, call) { ConfirmedIsAll(w, call); }
  }

  lemma {:induction false} CountAll(noted: seq<Write>, at: seq<nat>, m: nat, call: nat)
    requires m <= |noted| && Below(at, m)
    requires forall i, j :: 0 <= i < j < |at| ==> at[i] < at[j]
    requires forall k: nat :: k < m && noted[k].record.call == Some(call) ==> k in at
    ensures Count(noted, at, call) >= Noted(noted[..m], call)
    decreases m
  {
    if m > 0 {
      assert noted[..m][..m - 1] == noted[..m - 1];
      if at != [] && at[|at| - 1] == m - 1 {
        CountAll(noted, at[..|at| - 1], m - 1, call);
      } else {
        CountAll(noted, at, m - 1, call);
      }
    }
  }

  // With every turn accepted, everything is sent, and the call's writes are the batch.
  lemma {:induction false} AcceptedSends(w: World, batch: seq<Payload>, at: nat, call: nat, timed: bool, turns: seq<Turn>)
    requires |w.log.open| == |w.rx.pending| && at <= |batch| == |turns| && Sound(turns, |turns|)
    ensures var s := Send(w, batch, at, call, timed, turns);
            s.status == Ok && s.sent == |batch|
    decreases |batch| - at
  {
    hide Run, Note;
    if at < |batch| {
      var t := turns[at];
      AcceptedSends(Run(Note(Run(w, t.before), WriteOf(batch[at], t, call)), t.during), batch, at + 1, call, timed, turns);
    }
  }

  // A timed call whose messages the adapter all accepts answers as the wait ends: Stopped if the receiver was
  // stopped; otherwise Ok if every one of its writes has been confirmed, and Timeout if one has not.
  lemma TimedAnswers(w: World, batch: seq<Payload>, call: nat, turns: seq<Turn>, awaiting: seq<Event>, after: seq<Event>)
    requires Inv(w) && |batch| == |turns| && OthersOnly(turns, call) && Others(awaiting, call)
    requires Noted(w.log.noted, call) == 0 && Sound(turns, |turns|)
    ensures var u := Run(Send(w, batch, 0, call, true, turns).world, awaiting);
            var r := WriteAll(w, batch, call, true, turns, awaiting, after);
            && Mine(u.log.noted, call) == StoredMessages(batch)
            && (u.rx.stopped != 0 <==> r.status.Stopped?)
            && (r.status.Stopped? ==> r.status.code == u.rx.stopped)
            && (r.status == Ok <==> u.rx.stopped == 0 && AllConfirmed(u, call))
            && (r.status == Timeout <==> u.rx.stopped == 0 && !AllConfirmed(u, call))
  {
    hide Run, Send, Inv;
    MineCounts(w.log.noted, call);
    assert StoredMessages(batch[..0]) == [];
    SendNotes(w, batch, 0, call, true, turns);
    AcceptedSends(w, batch, 0, call, true, turns);
    var s := Send(w, batch, 0, call, true, turns);
    var n :| s.sent <= n <= |batch| && Mine(s.world.log.noted, call) == StoredMessages(batch[..n]);
    assert batch[..n] == batch;
    OthersRun(s.world, awaiting, call);
    var u := Run(s.world, awaiting);
    MineCounts(u.log.noted, call);
    AllIsConfirmed(u, call);
  }

  // An untimed call whose messages the adapter all accepts succeeds at once, counting them all.
  lemma UntimedAnswers(w: World, batch: seq<Payload>, call: nat, turns: seq<Turn>, awaiting: seq<Event>, after: seq<Event>)
    requires |w.log.open| == |w.rx.pending| && |batch| == |turns| && Sound(turns, |turns|)
    ensures var r := WriteAll(w, batch, call, false, turns, awaiting, after);
            r.status == Ok && r.count == |batch|
  {
    hide Run, Send;
    AcceptedSends(w, batch, 0, call, false, turns);
  }

  // The first message that is not accepted decides: the deadline of a timed call has passed, the adapter's buffer
  // is full, or the command failed or was refused otherwise. An untimed call has counted the messages before it.
  lemma FirstFailureAnswers(w: World, batch: seq<Payload>, call: nat, timed: bool, turns: seq<Turn>,
                            awaiting: seq<Event>, after: seq<Event>, k: nat)
    requires |w.log.open| == |w.rx.pending| && |batch| == |turns| && k < |turns|
    requires Sound(turns, k) && !(turns[k].Sent? && turns[k].answer == Accepted)
    ensures var r := WriteAll(w, batch, call, timed, turns, awaiting, after);
            && (timed && turns[k].Expired? ==> r.status == Timeout)
            && (turns[k].Sent? && turns[k].answer == BufferFull ==> r.status == Full)
            && (turns[k].Unsent? || (turns[k].Sent? && turns[k].answer == Refused) || (!timed && turns[k].Expired?) ==>
                  r.status == Failed)
            && (!timed ==> r.count == k)
  {
    hide Run, Send;
    FailureStops(w, batch, 0, call, timed, turns, k);
  }

  lemma {:induction false} FailureStops(w: World, batch: seq<Payload>, at: nat, call: nat, timed: bool,
                                        turns: seq<Turn>, k: nat)
    requires |w.log.open| == |w.rx.pending| && |batch| == |turns| && at <= k < |turns|
    requires Sound(turns, k) && !(turns[k].Sent? && turns[k].answer == Accepted)
    ensures var s := Send(w, batch, at, call, timed, turns);
            && s.sent == k
            && (timed && turns[k].Expired? ==> s.status == Timeout)
            && (turns[k].Sent? && turns[k].answer == BufferFull ==> s.status == Full)
            && (turns[k].Unsent? || (turns[k].Sent? && turns[k].answer == Refused) || (!timed && turns[k].Expired?) ==>
                  s.status == Failed)
    decreases k - at
  {
    hide Run, Note, Forget;
    if at < k {
      var t := turns[at];
      FailureStops(Run(Note(Run(w, t.before), WriteOf(batch[at], t, call)), t.during), batch, at + 1, call, timed, turns, k);
    }
  }
}
