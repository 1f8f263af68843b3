// src/isotp.cpp: host-side ISO 15765-2 reassembly, one conversation per source CAN ID.
module IsoTp {
  import opened Bytes

  const SINGLE_LIMIT := 7
  const SEGMENTED_MINIMUM := 8
  const MAX_MESSAGE := 0xfff
  const MAX_CONVERSATIONS := 32
  const START_OF_MESSAGE: u32 := 2

  datatype Output = Output(status: u32, data: Bytes)

  // message: the four ID octets and the payload so far. expected: the payload length announced.
  datatype Assembly = Assembly(id: u32, message: Bytes, expected: nat, sequence: nat)

  // The conversations in progress, oldest first.
  type Table = seq<Assembly>

  function SourceId(f: Bytes): u32
    requires |f| >= 4
  {
    var a: int, b: int, c: int, d: int := f[0], f[1], f[2], f[3];
    ((a * 256 + b) * 256 + c) * 256 + d
  }

  lemma SourceIdIsTheFirstFour(f: Bytes, g: Bytes)
    requires |f| >= 4 && |g| >= 4
    ensures SourceId(f) == SourceId(g) <==> f[..4] == g[..4]
  {
    if f[..4] == g[..4] {
      assert f[..4][0] == f[0] && f[..4][1] == f[1] && f[..4][2] == f[2] && f[..4][3] == f[3];
      assert g[..4][0] == g[0] && g[..4][1] == g[1] && g[..4][2] == g[2] && g[..4][3] == g[3];
    }
    if SourceId(f) == SourceId(g) {
      Digits(f[0], f[1], f[2], f[3], g[0], g[1], g[2], g[3]);
      assert f[..4] == g[..4];
    }
  }

  lemma Digits(a: int, b: int, c: int, d: int, a': int, b': int, c': int, d': int)
    requires 0 <= b < 256 && 0 <= c < 256 && 0 <= d < 256 && 0 <= b' < 256 && 0 <= c' < 256 && 0 <= d' < 256
    requires ((a * 256 + b) * 256 + c) * 256 + d == ((a' * 256 + b') * 256 + c') * 256 + d'
    ensures a == a' && b == b' && c == c' && d == d'
  {
    assert (a * 256 + b) * 256 + c == (a' * 256 + b') * 256 + c';
  }

  // The high and low halves of the protocol control octet.
  function Kind(f: Bytes): nat
    requires |f| > 4
  {
    f[4] / 16
  }

  function Low(f: Bytes): nat
    requires |f| > 4
  {
    f[4] % 16
  }

  function Clip(b: Bytes, n: nat): Bytes {
    if |b| <= n then b else b[..n]
  }

  predicate From(f: Bytes, id: u32) {
    |f| > 4 && SourceId(f) == id
  }

  function Announced(f: Bytes): nat
    requires |f| >= 6
  {
    Low(f) * 256 + f[5]
  }

  // A first frame that starts a conversation.
  predicate Opens(f: Bytes) {
    |f| >= 6 && Kind(f) == 1 && Announced(f) >= SEGMENTED_MINIMUM
  }

  // ---------------------------------------------------------------- the rules within one conversation

  datatype Progress = Progress(open: Option<Assembly>, outs: seq<Output>)

  function Begin(f: Bytes): Assembly
    requires Opens(f)
  {
    Assembly(SourceId(f), Clip(f[..4] + f[6..], 4 + Announced(f)), Announced(f), 1)
  }

  function Grow(a: Assembly, f: Bytes): Assembly
    requires |f| > 4
  {
    a.(message := Clip(a.message + f[5..], 4 + a.expected), sequence := (a.sequence + 1) % 16)
  }

  predicate SingleOk(f: Bytes)
    requires |f| > 4
  {
    Low(f) <= SINGLE_LIMIT && Low(f) <= |f| - 5
  }

  function Converse(open: Option<Assembly>, f: Bytes): Progress
    requires |f| > 4
  {
    match Kind(f)
    case 0 =>
      // a good single frame leaves a partial message in place, a bad one ends it
      if SingleOk(f) then Progress(open, [Output(0, f[..4] + f[5..5 + Low(f)])]) else Progress(None, [])
    case 1 =>
      if Opens(f) then Progress(Some(Begin(f)), [Output(START_OF_MESSAGE, f[..4])]) else Progress(None, [])
    case 2 =>
      if open.None? || |f| < 6 || Low(f) != open.value.sequence then Progress(None, [])
      else
        var grown := Grow(open.value, f);
        if |grown.message| < 4 + grown.expected then Progress(Some(grown), [])
        else Progress(None, [Output(0, grown.message)])
    case _ => Progress(open, [])
  }

  function ConverseAll(open: Option<Assembly>, frames: seq<Bytes>): Progress
    requires forall f :: f in frames ==> |f| > 4
    decreases |frames|
  {
    if frames == [] then Progress(open, [])
    else
      var p := Converse(open, frames[0]);
      var q := ConverseAll(p.open, frames[1..]);
      Progress(q.open, p.outs + q.outs)
  }

  // ---------------------------------------------------------------- the table of conversations

  function Find(t: Table, id: u32): (i: nat)
    ensures i <= |t|
    ensures i < |t| ==> t[i].id == id
    ensures forall j :: 0 <= j < i ==> t[j].id != id
  {
    FindFrom(t, id, 0)
  }

  function FindFrom(t: Table, id: u32, from: nat): (i: nat)
    requires from <= |t|
    ensures from <= i <= |t|
    ensures i < |t| ==> t[i].id == id
    ensures forall j :: from <= j < i ==> t[j].id != id
    decreases |t| - from
  {
    if from == |t| || t[from].id == id then from else FindFrom(t, id, from + 1)
  }

  function Lookup(t: Table, id: u32): Option<Assembly> {
    if Find(t, id) < |t| then Some(t[Find(t, id)]) else None
  }

  function Drop(t: Table, id: u32): Table {
    var i := Find(t, id);
    if i < |t| then Remove(t, i) else t
  }

  // A new conversation takes the oldest one's place when the table is full.
  function Push(t: Table, a: Assembly): Table {
    (if |t| == MAX_CONVERSATIONS then t[1..] else t) + [a]
  }

  function Store(t: Table, f: Bytes, open: Option<Assembly>): Table
    requires |f| > 4
  {
    var id := SourceId(f);
    match open
    case None => Drop(t, id)
    case Some(a) =>
      if Kind(f) == 1 then Push(Drop(t, id), a)
      else if Find(t, id) < |t| then t[Find(t, id) := a]
      else t
  }

  // One frame: its own conversation advances by the rules above and the table is updated to match.
  function After(t: Table, f: Bytes): Table {
    if |f| <= 4 then t else Store(t, f, Converse(Lookup(t, SourceId(f)), f).open)
  }

  function Reported(t: Table, f: Bytes): seq<Output> {
    if |f| <= 4 then [] else Converse(Lookup(t, SourceId(f)), f).outs
  }

  ghost predicate Sound(a: Assembly) {
    && SEGMENTED_MINIMUM <= a.expected <= MAX_MESSAGE
    && 4 <= |a.message| <= 4 + a.expected
    && a.id == SourceId(a.message)
    && a.sequence < 16
  }

  ghost predicate Valid(t: Table) {
    && |t| <= MAX_CONVERSATIONS
    && (forall i, j :: 0 <= i < j < |t| ==> t[i].id != t[j].id)
    && (forall a :: a in t ==> Sound(a))
  }

  lemma FindUnique(t: Table, i: nat)
    requires Valid(t) && i < |t|
    ensures Find(t, t[i].id) == i
  {
  }

  lemma SourceIdOfPrefix(f: Bytes, g: Bytes)
    requires |f| >= 4 && |g| >= 4 && g[..4] == f[..4]
    ensures SourceId(g) == SourceId(f)
  {
    SourceIdIsTheFirstFour(f, g);
  }

  lemma BeginSound(f: Bytes)
    requires Opens(f)
    ensures Sound(Begin(f))
  {
    assert Begin(f).message[..4] == f[..4];
    SourceIdOfPrefix(f, Begin(f).message);
  }

  lemma GrowSound(a: Assembly, f: Bytes)
    requires Sound(a) && |f| > 4
    ensures Sound(Grow(a, f)) && Grow(a, f).id == a.id
  {
    assert Grow(a, f).message[..4] == a.message[..4];
    SourceIdOfPrefix(a.message, Grow(a, f).message);
  }

  lemma FindAt(t: Table, id: u32, k: nat)
    requires k < |t| && t[k].id == id && forall j :: 0 <= j < k ==> t[j].id != id
    ensures Find(t, id) == k && Lookup(t, id) == Some(t[k])
  {
  }

  lemma DropShifts(t: Table, id: u32)
    ensures |Drop(t, id)| == if Find(t, id) < |t| then |t| - 1 else |t|
    ensures forall j :: 0 <= j < |Drop(t, id)| ==> Drop(t, id)[j] == t[if j < Find(t, id) then j else j + 1]
  {
    if Find(t, id) < |t| { RemoveShifts(t, Find(t, id)); }
  }

  lemma DropValid(t: Table, id: u32)
    requires Valid(t)
    ensures Valid(Drop(t, id)) && Lookup(Drop(t, id), id) == None
  {
    DropShifts(t, id);
    var d, i := Drop(t, id), Find(t, id);
    if i < |t| {
      assert forall j :: 0 <= j < |d| ==> d[j].id != id;
      assert forall x :: x in d ==> x in t;
    }
  }

  lemma PushValid(t: Table, a: Assembly)
    requires Valid(t) && Sound(a) && Lookup(t, a.id) == None
    ensures Valid(Push(t, a)) && Lookup(Push(t, a), a.id) == Some(a) && Find(Push(t, a), a.id) == |Push(t, a)| - 1
  {
    var p := Push(t, a);
    var s := if |t| == MAX_CONVERSATIONS then 1 else 0;
    assert forall j :: 0 <= j < |p| - 1 ==> p[j] == t[j + s];
    FindAt(p, a.id, |p| - 1);
  }

  lemma ReplaceValid(t: Table, a: Assembly)
    requires Valid(t) && Sound(a) && Find(t, a.id) < |t|
    ensures var u := t[Find(t, a.id) := a];
            Valid(u) && Find(u, a.id) == Find(t, a.id) && Lookup(u, a.id) == Some(a)
  {
    FindAt(t[Find(t, a.id) := a], a.id, Find(t, a.id));
  }

  lemma ConverseSound(open: Option<Assembly>, f: Bytes)
    requires |f| > 4 && (open.Some? ==> Sound(open.value) && open.value.id == SourceId(f))
    ensures var o := Converse(open, f).open; o.Some? ==> Sound(o.value) && o.value.id == SourceId(f)
    ensures var o := Converse(open, f).open; o.Some? && Kind(f) != 1 ==> open.Some?
  {
    if Opens(f) { BeginSound(f); }
    if open.Some? { GrowSound(open.value, f); }
  }

  // The two facts every step keeps, and how a frame leaves its own conversation.
  lemma AfterValid(t: Table, f: Bytes)
    requires Valid(t)
    ensures Valid(After(t, f))
    ensures |f| > 4 ==> Lookup(After(t, f), SourceId(f)) == Converse(Lookup(t, SourceId(f)), f).open
    ensures |After(t, f)| <= 32
  {
    if |f| > 4 {
      var id := SourceId(f);
      var open := Lookup(t, id);
      ConverseSound(open, f);
      DropValid(t, id);
      var o := Converse(open, f).open;
      if o.Some? {
        if Kind(f) == 1 { PushValid(Drop(t, id), o.value); } else { ReplaceValid(t, o.value); }
      }
    }
  }

  function TableAfter(t: Table, frames: seq<Bytes>): Table
    decreases |frames|
  {
    if frames == [] then t else TableAfter(After(t, frames[0]), frames[1..])
  }

  lemma {:induction false} TableAfterValid(t: Table, frames: seq<Bytes>)
    requires Valid(t)
    ensures Valid(TableAfter(t, frames))
    decreases |frames|
  {
    if frames != [] {
      AfterValid(t, frames[0]);
      TableAfterValid(After(t, frames[0]), frames[1..]);
    }
  }

  lemma {:induction false} TableAfterSnoc(t: Table, frames: seq<Bytes>, f: Bytes)
    ensures TableAfter(t, frames + [f]) == After(TableAfter(t, frames), f)
    decreases |frames|
  {
    if frames == [] {
      assert [f][1..] == [];
    } else {
      assert (frames + [f])[1..] == frames[1..] + [f];
      TableAfterSnoc(After(t, frames[0]), frames[1..], f);
    }
  }

  // ---------------------------------------------------------------- isolation

  function Of(frames: seq<Bytes>, id: u32): (own: seq<Bytes>)
    ensures forall f :: f in own ==> |f| > 4 && SourceId(f) == id
  {
    if frames == [] then []
    else (if From(frames[0], id) then [frames[0]] else []) + Of(frames[1..], id)
  }

  // What the reassembler reports while it is fed `frames`, kept to one ID's frames.
  function Heard(t: Table, frames: seq<Bytes>, id: u32): seq<Output>
    decreases |frames|
  {
    if frames == [] then []
    else (if From(frames[0], id) then Reported(t, frames[0]) else []) + Heard(After(t, frames[0]), frames[1..], id)
  }

  function Openers(frames: seq<Bytes>): set<u32> {
    set f | f in frames && Opens(f) :: SourceId(f)
  }

  // The frame throws out ID's conversation to make room for its own.
  predicate Evicts(t: Table, f: Bytes, id: u32) {
    && Opens(f) && SourceId(f) != id
    && var rest := Drop(t, SourceId(f));
       |rest| == MAX_CONVERSATIONS && rest[0].id == id
  }

  predicate Kept(t: Table, frames: seq<Bytes>, id: u32)
    decreases |frames|
  {
    frames == [] || (!Evicts(t, frames[0], id) && Kept(After(t, frames[0]), frames[1..], id))
  }

  lemma DropOther(t: Table, gone: u32, id: u32)
    requires Valid(t) && gone != id
    ensures Lookup(Drop(t, gone), id) == Lookup(t, id)
    ensures Find(t, id) < |t| ==>
              Find(Drop(t, gone), id) == if Find(t, id) < Find(t, gone) then Find(t, id) else Find(t, id) - 1
  {
    var d, i, k := Drop(t, gone), Find(t, gone), Find(t, id);
    DropShifts(t, gone);
    if k < |t| && i < |t| {
      FindAt(d, id, if k < i then k else k - 1);
    }
  }

  lemma PushOther(t: Table, a: Assembly, id: u32)
    requires Valid(t) && a.id != id && !(|t| == MAX_CONVERSATIONS && t[0].id == id)
    ensures Lookup(Push(t, a), id) == Lookup(t, id)
    ensures Find(t, id) < |t| ==>
              Find(Push(t, a), id) == if |t| == MAX_CONVERSATIONS then Find(t, id) - 1 else Find(t, id)
  {
    var p, k := Push(t, a), Find(t, id);
    var s := if |t| == MAX_CONVERSATIONS then 1 else 0;
    assert forall j :: 0 <= j < |p| - 1 ==> p[j] == t[j + s];
    if k < |t| {
      FindAt(p, id, k - s);
    }
  }

  lemma ReplaceOther(t: Table, a: Assembly, id: u32)
    requires Valid(t) && a.id != id && Find(t, a.id) < |t|
    ensures Lookup(t[Find(t, a.id) := a], id) == Lookup(t, id)
    ensures Find(t[Find(t, a.id) := a], id) == Find(t, id)
  {
    if Find(t, id) < |t| {
      FindAt(t[Find(t, a.id) := a], id, Find(t, id));
    }
  }

  lemma OtherFrame(t: Table, f: Bytes, id: u32)
    requires Valid(t) && !From(f, id) && !Evicts(t, f, id)
    ensures Lookup(After(t, f), id) == Lookup(t, id)
  {
    if |f| > 4 {
      var source := SourceId(f);
      ConverseSound(Lookup(t, source), f);
      DropValid(t, source);
      DropOther(t, source, id);
      var o := Converse(Lookup(t, source), f).open;
      if o.Some? {
        if Kind(f) == 1 { PushOther(Drop(t, source), o.value, id); } else { ReplaceOther(t, o.value, id); }
      }
    }
  }

  // As long as nothing throws it out, a conversation runs as if it were alone.
  lemma {:induction false} KeptIsAlone(t: Table, frames: seq<Bytes>, id: u32)
    requires Valid(t) && Kept(t, frames, id)
    ensures var p := ConverseAll(Lookup(t, id), Of(frames, id));
            Heard(t, frames, id) == p.outs && Lookup(TableAfter(t, frames), id) == p.open
    decreases |frames|
  {
    if frames != [] {
      var f := frames[0];
      AfterValid(t, f);
      KeptIsAlone(After(t, f), frames[1..], id);
      if From(f, id) {
        assert Of(frames, id)[1..] == Of(frames[1..], id);
      } else {
        OtherFrame(t, f, id);
        assert Of(frames, id) == Of(frames[1..], id);
      }
    }
  }

  // The IDs behind `id` in the table: the conversations opened since it was.
  ghost predicate Behind(t: Table, id: u32, later: set<u32>) {
    forall i :: Find(t, id) < i < |t| ==> t[i].id in later
  }

  lemma BehindDrop(t: Table, gone: u32, id: u32, later: set<u32>)
    requires Valid(t) && Behind(t, id, later)
    ensures Behind(Drop(t, gone), id, later)
  {
    DropValid(t, gone);
    DropShifts(t, gone);
    if gone != id { DropOther(t, gone, id); }
  }

  lemma BehindPush(t: Table, a: Assembly, id: u32, later: set<u32>)
    requires Valid(t) && Behind(t, id, later) && Sound(a) && Lookup(t, a.id) == None
    requires a.id != id ==> a.id in later && !(|t| == MAX_CONVERSATIONS && t[0].id == id)
    ensures Behind(Push(t, a), id, later)
  {
    PushValid(t, a);
    var p, s := Push(t, a), if |t| == MAX_CONVERSATIONS then 1 else 0;
    assert forall j :: 0 <= j < |p| - 1 ==> p[j] == t[j + s];
    if a.id != id { PushOther(t, a, id); }
  }

  lemma BehindReplace(t: Table, a: Assembly, id: u32, later: set<u32>)
    requires Valid(t) && Behind(t, id, later) && Sound(a) && Find(t, a.id) < |t|
    ensures Behind(t[Find(t, a.id) := a], id, later)
  {
    ReplaceValid(t, a);
    if a.id != id { ReplaceOther(t, a, id); }
  }

  lemma BehindStep(t: Table, f: Bytes, id: u32, later: set<u32>)
    requires Valid(t) && Behind(t, id, later) && id !in later && |later| < MAX_CONVERSATIONS
    requires Opens(f) && SourceId(f) != id ==> SourceId(f) in later
    ensures !Evicts(t, f, id)
    ensures Behind(After(t, f), id, later)
  {
    if |f| > 4 {
      var source := SourceId(f);
      var d := Drop(t, source);
      ConverseSound(Lookup(t, source), f);
      DropValid(t, source);
      BehindDrop(t, source, id, later);
      if source != id && Opens(f) { NotOldest(d, id, later, source); }
      var o := Converse(Lookup(t, source), f).open;
      if o.Some? {
        if Kind(f) == 1 { BehindPush(d, o.value, id, later); } else { BehindReplace(t, o.value, id, later); }
      }
    }
  }

  // An ID with fewer than thirty-two possible successors, one of them absent, is not the oldest of thirty-two.
  lemma NotOldest(d: Table, id: u32, later: set<u32>, absent: u32)
    requires Valid(d) && Behind(d, id, later) && |later| < MAX_CONVERSATIONS
    requires absent in later && Lookup(d, absent) == None
    ensures !(|d| == MAX_CONVERSATIONS && d[0].id == id)
  {
    if |d| == MAX_CONVERSATIONS && d[0].id == id {
      var ids := seq(|d| - 1, j requires 0 <= j < |d| - 1 => d[j + 1].id);
      DistinctElements(ids);
      SubsetSize(Elements(ids), later - {absent});
    }
  }

  lemma {:induction false} FewOpenersKeep(t: Table, frames: seq<Bytes>, id: u32, later: set<u32>)
    requires Valid(t) && Behind(t, id, later) && id !in later && |later| < MAX_CONVERSATIONS
    requires Openers(frames) - {id} <= later
    ensures Kept(t, frames, id)
    decreases |frames|
  {
    if frames != [] {
      var f := frames[0];
      assert Opens(f) ==> SourceId(f) in Openers(frames);
      BehindStep(t, f, id, later);
      AfterValid(t, f);
      assert Openers(frames[1..]) <= Openers(frames);
      FewOpenersKeep(After(t, f), frames[1..], id, later);
    }
  }

  lemma {:induction false} NeverOpenKeeps(t: Table, frames: seq<Bytes>, id: u32)
    requires Valid(t) && Lookup(t, id) == None && id !in Openers(frames)
    ensures Kept(t, frames, id)
    decreases |frames|
  {
    if frames != [] {
      var f := frames[0];
      if |f| > 4 && SourceId(f) != id { DropOther(t, SourceId(f), id); }
      assert Opens(f) ==> SourceId(f) in Openers(frames);
      AfterValid(t, f);
      if !From(f, id) { OtherFrame(t, f, id); }
      assert Openers(frames[1..]) <= Openers(frames);
      NeverOpenKeeps(After(t, f), frames[1..], id);
    }
  }

  lemma EnoughRoom(frames: seq<Bytes>, id: u32)
    requires |Openers(frames)| <= MAX_CONVERSATIONS
    ensures Kept([], frames, id)
  {
    if id in Openers(frames) {
      FewOpenersKeep([], frames, id, Openers(frames) - {id});
    } else {
      NeverOpenKeeps([], frames, id);
    }
  }

  lemma {:induction false} OfOf(frames: seq<Bytes>, id: u32)
    ensures Of(Of(frames, id), id) == Of(frames, id)
    ensures Openers(Of(frames, id)) <= {id}
  {
    if frames != [] {
      OfOf(frames[1..], id);
      if From(frames[0], id) {
        assert Of(frames, id)[1..] == Of(frames[1..], id);
      } else {
        assert Of(frames, id) == Of(frames[1..], id);
      }
    }
  }

  // Interleaving refines isolation. When no more than thirty-two IDs open a conversation, each ID is
  // answered exactly as by a fresh reassembler that only ever saw that ID's frames.
  lemma Isolation(frames: seq<Bytes>, id: u32)
    requires |Openers(frames)| <= 32
    ensures Heard([], frames, id) == Heard([], Of(frames, id), id)
    ensures Lookup(TableAfter([], frames), id) == Lookup(TableAfter([], Of(frames, id)), id)
  {
    OfOf(frames, id);
    SubsetSize(Openers(Of(frames, id)), {id});
    EnoughRoom(frames, id);
    EnoughRoom(Of(frames, id), id);
    KeptIsAlone([], frames, id);
    KeptIsAlone([], Of(frames, id), id);
  }

  // Every report names the ID of the frame that caused it.
  lemma ReportsNameTheirId(t: Table, f: Bytes)
    requires Valid(t)
    ensures forall o :: o in Reported(t, f) ==> |o.data| >= 4 && o.data[..4] == f[..4] && |o.data| <= 4 + MAX_MESSAGE
  {
    if |f| > 4 && Kind(f) == 2 {
      var open := Lookup(t, SourceId(f));
      if open.Some? {
        GrowSound(open.value, f);
        SourceIdIsTheFirstFour(Grow(open.value, f).message, f);
      }
    }
  }

  // ---------------------------------------------------------------- the segmentation round trip

  // The sender's rule: a first frame with six payload octets, then consecutive frames of up to seven,
  // numbered from 1 and wrapping to 0 after 15. The last may be padded with anything.
  function Segment(id: Bytes, payload: Bytes, pad: Bytes): (fs: seq<Bytes>)
    requires |id| == 4 && SEGMENTED_MINIMUM <= |payload| <= MAX_MESSAGE
    ensures forall f :: f in fs ==> |f| > 4 && f[..4] == id
  {
    [id + [0x10 + |payload| / 256, |payload| % 256] + payload[..6]] + Followers(id, payload[6..], 1, pad)
  }

  function Followers(id: Bytes, rest: Bytes, sequence: nat, pad: Bytes): (fs: seq<Bytes>)
    requires |id| == 4 && rest != [] && sequence < 16
    ensures forall f :: f in fs ==> |f| > 4 && f[..4] == id
    decreases |rest|
  {
    if |rest| <= 7 then [id + [0x20 + sequence] + (rest + pad)]
    else [id + [0x20 + sequence] + rest[..7]] + Followers(id, rest[7..], (sequence + 1) % 16, pad)
  }

  // The last consecutive frame completes the message; any other one extends it.
  lemma FollowerStep(a: Assembly, id: Bytes, part: Bytes, left: nat)
    requires |id| == 4 && part != [] && a.sequence < 16 && |a.message| >= 4
    requires 4 + a.expected == |a.message| + left
    ensures var f := id + [0x20 + a.sequence] + part;
            && |f| > 4 && f[..4] == id
            && (|part| >= left ==> Converse(Some(a), f) == Progress(None, [Output(0, a.message + part[..left])]))
            && (|part| < left ==>
                  Converse(Some(a), f)
                  == Progress(Some(a.(message := a.message + part, sequence := (a.sequence + 1) % 16)), []))
  {
    var f := id + [0x20 + a.sequence] + part;
    assert f[4] == 0x20 + a.sequence && f[..4] == id && f[5..] == part;
    if |part| >= left {
      assert Clip(a.message + part, 4 + a.expected) == a.message + part[..left];
    }
  }

  lemma ConverseCons(open: Option<Assembly>, f: Bytes, rest: seq<Bytes>)
    requires |f| > 4 && forall g :: g in rest ==> |g| > 4
    ensures var p := Converse(open, f);
            var q := ConverseAll(p.open, rest);
            ConverseAll(open, [f] + rest) == Progress(q.open, p.outs + q.outs)
  {
    assert ([f] + rest)[1..] == rest;
  }

  lemma {:induction false} FollowersComplete(a: Assembly, id: Bytes, rest: Bytes, pad: Bytes)
    requires |id| == 4 && rest != [] && a.sequence < 16 && |a.message| >= 4
    requires 4 + a.expected == |a.message| + |rest|
    ensures ConverseAll(Some(a), Followers(id, rest, a.sequence, pad))
         == Progress(None, [Output(0, a.message + rest)])
    decreases |rest|
  {
    hide ConverseAll, Converse, Followers;
    if |rest| <= 7 {
      LastFollower(a, id, rest, pad);
    } else {
      var grown := FollowerMore(a, id, rest, pad);
      FollowersComplete(grown, id, rest[7..], pad);
      assert rest == rest[..7] + rest[7..];
      assert a.message + rest == grown.message + rest[7..];
    }
  }

  lemma FollowerMore(a: Assembly, id: Bytes, rest: Bytes, pad: Bytes) returns (grown: Assembly)
    requires |id| == 4 && |rest| > 7 && a.sequence < 16 && |a.message| >= 4
    requires 4 + a.expected == |a.message| + |rest|
    ensures grown.sequence < 16 && grown.expected == a.expected && grown.message == a.message + rest[..7]
    ensures ConverseAll(Some(a), Followers(id, rest, a.sequence, pad))
         == ConverseAll(Some(grown), Followers(id, rest[7..], grown.sequence, pad))
  {
    FollowerStep(a, id, rest[..7], |rest|);
    grown := a.(message := a.message + rest[..7], sequence := (a.sequence + 1) % 16);
    ConverseQuietly(a, id + [0x20 + a.sequence] + rest[..7], grown, Followers(id, rest[7..], grown.sequence, pad));
  }

  lemma ConverseQuietly(a: Assembly, f: Bytes, grown: Assembly, rest: seq<Bytes>)
    requires |f| > 4 && forall g :: g in rest ==> |g| > 4
    requires Converse(Some(a), f) == Progress(Some(grown), [])
    ensures ConverseAll(Some(a), [f] + rest) == ConverseAll(Some(grown), rest)
  {
    ConverseCons(Some(a), f, rest);
    var q := ConverseAll(Some(grown), rest);
    assert [] + q.outs == q.outs;
  }

  lemma LastFollower(a: Assembly, id: Bytes, rest: Bytes, pad: Bytes)
    requires |id| == 4 && 0 < |rest| <= 7 && a.sequence < 16 && |a.message| >= 4
    requires 4 + a.expected == |a.message| + |rest|
    ensures ConverseAll(Some(a), Followers(id, rest, a.sequence, pad))
         == Progress(None, [Output(0, a.message + rest)])
  {
    var f := id + [0x20 + a.sequence] + (rest + pad);
    FollowerStep(a, id, rest + pad, |rest|);
    assert (rest + pad)[..|rest|] == rest;
    ConverseCons(Some(a), f, []);
    assert [f] + [] == [f];
  }

  // Alone, a segmented message is one start-of-message and then the message, whatever came before it.
  lemma SegmentAlone(open: Option<Assembly>, id: Bytes, payload: Bytes, pad: Bytes)
    requires |id| == 4 && SEGMENTED_MINIMUM <= |payload| <= MAX_MESSAGE
    ensures ConverseAll(open, Segment(id, payload, pad))
         == Progress(None, [Output(START_OF_MESSAGE, id), Output(0, id + payload)])
  {
    hide Converse, ConverseAll, Followers;
    var fs := Segment(id, payload, pad);
    var f := fs[0];
    FirstSegment(id, payload, pad);
    FirstConverses(open, f);
    FollowersComplete(Begin(f), id, payload[6..], pad);
    ConverseCons(open, f, Followers(id, payload[6..], 1, pad));
    assert payload == payload[..6] + payload[6..];
    assert id + payload == (id + payload[..6]) + payload[6..];
  }

  lemma FirstConverses(open: Option<Assembly>, f: Bytes)
    requires Opens(f)
    ensures Converse(open, f) == Progress(Some(Begin(f)), [Output(START_OF_MESSAGE, f[..4])])
  {
  }

  lemma FirstSegment(id: Bytes, payload: Bytes, pad: Bytes)
    requires |id| == 4 && SEGMENTED_MINIMUM <= |payload| <= MAX_MESSAGE
    ensures var f := Segment(id, payload, pad)[0];
            && Opens(f) && f[..4] == id && Announced(f) == |payload|
            && Begin(f) == Assembly(SourceId(id), id + payload[..6], |payload|, 1)
  {
    var f := Segment(id, payload, pad)[0];
    assert f[4] == 0x10 + |payload| / 256 && f[5] == |payload| % 256 && f[..4] == id && f[6..] == payload[..6];
    SourceIdOfPrefix(id, f);
  }

  // Nothing throws a conversation out that fewer than thirty-two other IDs open after.
  lemma KeptFromFirst(t: Table, frames: seq<Bytes>, id: Bytes, payload: Bytes, pad: Bytes)
    requires Valid(t) && |id| == 4 && SEGMENTED_MINIMUM <= |payload| <= MAX_MESSAGE
    requires frames != [] && frames[0] == Segment(id, payload, pad)[0]
    requires |Openers(frames) - {SourceId(id)}| < MAX_CONVERSATIONS
    ensures Kept(t, frames, SourceId(id))
  {
    var source, f := SourceId(id), frames[0];
    FirstSegment(id, payload, pad);
    SourceIdOfPrefix(id, f);
    AfterValid(t, f);
    DropValid(t, source);
    BeginSound(f);
    PushValid(Drop(t, source), Begin(f));
    assert Openers(frames[1..]) <= Openers(frames);
    FewOpenersKeep(After(t, f), frames[1..], source, Openers(frames) - {source});
  }

  // The round trip on a busy bus: the segments come in among any other frames, into a reassembler in any
  // state, and as long as fewer than thirty-two other IDs open a conversation from the first frame on, the
  // listener hears the start of the message and then the message, and nothing is left behind.
  lemma SegmentationRoundTrip(t: Table, frames: seq<Bytes>, id: Bytes, payload: Bytes, pad: Bytes)
    requires Valid(t) && |id| == 4 && 8 <= |payload| <= 4095
    requires Of(frames, SourceId(id)) == Segment(id, payload, pad)
    requires frames[0] == Segment(id, payload, pad)[0]
    requires |Openers(frames) - {SourceId(id)}| < 32
    ensures Heard(t, frames, SourceId(id)) == [Output(START_OF_MESSAGE, id), Output(0, id + payload)]
    ensures Lookup(TableAfter(t, frames), SourceId(id)) == None
  {
    var source := SourceId(id);
    SegmentAlone(Lookup(t, source), id, payload, pad);
    KeptFromFirst(t, frames, id, payload, pad);
    KeptIsAlone(t, frames, source);
  }

  // ---------------------------------------------------------------- what a delivered message is made of

  function Consecutives(p: seq<Bytes>): (c: seq<Bytes>)
    requires forall f :: f in p ==> |f| > 4
    ensures forall f :: f in c ==> |f| > 4 && Kind(f) == 2
  {
    if p == [] then []
    else Consecutives(p[..|p| - 1]) + (if Kind(p[|p| - 1]) == 2 then [p[|p| - 1]] else [])
  }

  function Data(c: seq<Bytes>): Bytes
    requires forall f :: f in c ==> |f| > 4
  {
    if c == [] then [] else Data(c[..|c| - 1]) + c[|c| - 1][5..]
  }

  // Within one ID's frames: a first frame, no other since, and every consecutive frame since then numbered
  // 1, 2, ... modulo 16 with none missing.
  ghost predicate Chain(first: Bytes, since: seq<Bytes>) {
    && Opens(first)
    && (forall f :: f in since ==> |f| > 4 && Kind(f) != 1)
    && Numbered(Consecutives(since))
  }

  ghost predicate Numbered(c: seq<Bytes>) {
    forall k :: 0 <= k < |c| ==> |c[k]| >= 6 && Low(c[k]) == (k + 1) % 16
  }

  ghost function Carried(first: Bytes, since: seq<Bytes>): Bytes
    requires Chain(first, since)
  {
    first[6..] + Data(Consecutives(since))
  }

  // `last` completes the message: exactly the announced number of octets, cut from what the chain has
  // carried, which was short of it until this frame.
  ghost predicate Completes(first: Bytes, since: seq<Bytes>, last: Bytes, data: Bytes) {
    && Chain(first, since) && Chain(first, since + [last]) && Kind(last) == 2
    && (Consecutives(since) != [] ==> |Carried(first, since)| < Announced(first))
    && |Carried(first, since + [last])| >= Announced(first)
    && data == first[..4] + Carried(first, since + [last])[..Announced(first)]
  }

  ghost predicate Completed(p: seq<Bytes>, last: Bytes, data: Bytes) {
    exists before, first, since :: p == before + [first] + since && Completes(first, since, last, data)
  }

  // The same chain gathered frame by frame, for the induction: how many consecutive frames, and what they carry.
  datatype Gather = Gather(count: nat, data: Bytes)

  function Gathered(first: Bytes, since: seq<Bytes>): Option<Gather> {
    if since == [] then (if Opens(first) then Some(Gather(0, first[6..])) else None)
    else GatherNext(Gathered(first, since[..|since| - 1]), since[|since| - 1])
  }

  function GatherNext(g: Option<Gather>, f: Bytes): Option<Gather> {
    if g.None? || |f| <= 4 || Kind(f) == 1 then None
    else if Kind(f) != 2 then g
    else if |f| >= 6 && Low(f) == (g.value.count + 1) % 16 then Some(Gather(g.value.count + 1, g.value.data + f[5..]))
    else None
  }

  lemma GatheredSnoc(first: Bytes, since: seq<Bytes>, f: Bytes)
    ensures Gathered(first, since + [f]) == GatherNext(Gathered(first, since), f)
  {
    assert (since + [f])[..|since|] == since;
  }

  lemma {:induction false} GatheredIsChain(first: Bytes, since: seq<Bytes>)
    requires Gathered(first, since).Some?
    ensures Chain(first, since)
    ensures Gathered(first, since).value == Gather(|Consecutives(since)|, Carried(first, since))
  {
    if since == [] {
      assert first[6..] + Data([]) == first[6..];
    } else {
      var early, f := since[..|since| - 1], since[|since| - 1];
      GatheredIsChain(first, early);
      ChainSnoc(first, early, f);
      assert since == early + [f];
    }
  }

  // An open conversation is the octets its chain has carried so far, and is not complete.
  ghost predicate Explains(first: Bytes, since: seq<Bytes>, a: Assembly) {
    Gathered(first, since).Some? && Matches(first, Gathered(first, since).value, a)
  }

  predicate Matches(first: Bytes, g: Gather, a: Assembly) {
    && Opens(first)
    && a.expected == Announced(first)
    && a.sequence == (g.count + 1) % 16
    && a.message == Clip(first[..4] + g.data, 4 + a.expected)
    && (g.count > 0 ==> |g.data| < a.expected)
  }

  ghost predicate Explained(p: seq<Bytes>, a: Assembly) {
    exists before, first, since :: p == before + [first] + since && Explains(first, since, a)
  }

  lemma {:induction false} OfSnoc(h: seq<Bytes>, f: Bytes, id: u32)
    ensures Of(h + [f], id) == Of(h, id) + (if From(f, id) then [f] else [])
  {
    if h == [] {
      assert (h + [f])[1..] == [];
    } else {
      assert (h + [f])[1..] == h[1..] + [f];
      OfSnoc(h[1..], f, id);
    }
  }

  lemma ConsecutivesSnoc(since: seq<Bytes>, f: Bytes)
    requires |f| > 4 && forall g :: g in since ==> |g| > 4
    ensures Consecutives(since + [f]) == Consecutives(since) + (if Kind(f) == 2 then [f] else [])
  {
    var q := since + [f];
    assert q[..|q| - 1] == since;
  }

  lemma DataSnoc(c: seq<Bytes>, f: Bytes)
    requires |f| > 4 && forall g :: g in c ==> |g| > 4
    ensures Data(c + [f]) == Data(c) + f[5..]
  {
    assert (c + [f])[..|c|] == c;
  }

  lemma NumberedSnoc(c: seq<Bytes>, f: Bytes)
    requires Numbered(c) && |f| >= 6 && Low(f) == (|c| + 1) % 16
    ensures Numbered(c + [f])
  {
  }

  lemma ChainSnoc(first: Bytes, since: seq<Bytes>, f: Bytes)
    requires Chain(first, since) && |f| > 4 && Kind(f) != 1
    requires Kind(f) == 2 ==> |f| >= 6 && Low(f) == (|Consecutives(since)| + 1) % 16
    ensures Chain(first, since + [f])
    ensures |Consecutives(since + [f])| == |Consecutives(since)| + (if Kind(f) == 2 then 1 else 0)
    ensures Kind(f) == 2 ==> Carried(first, since + [f]) == Carried(first, since) + f[5..]
    ensures Kind(f) != 2 ==> Carried(first, since + [f]) == Carried(first, since)
  {
    hide Consecutives, Data;
    var c := Consecutives(since);
    ConsecutivesSnoc(since, f);
    if Kind(f) == 2 {
      NumberedSnoc(c, f);
      DataSnoc(c, f);
      assert first[6..] + (Data(c) + f[5..]) == (first[6..] + Data(c)) + f[5..];
    } else {
      assert c + [] == c;
    }
  }

  lemma ClipMore(b: Bytes, more: Bytes, n: nat)
    ensures Clip(Clip(b, n) + more, n) == Clip(b + more, n)
  {
  }

  lemma ExplainedAfter(p: seq<Bytes>, a: Assembly, f: Bytes)
    requires Explained(p, a) && |f| > 4
    requires Kind(f) == 0 || Kind(f) > 2
    ensures Explained(p + [f], a)
  {
    var before, first, since :| p == before + [first] + since && Explains(first, since, a);
    GatheredSnoc(first, since, f);
    Longer(p, before, first, since, f);
    assert Explains(first, since + [f], a);
  }

  lemma Longer(p: seq<Bytes>, before: seq<Bytes>, first: Bytes, since: seq<Bytes>, f: Bytes)
    requires p == before + [first] + since
    ensures p + [f] == before + [first] + (since + [f])
  {
  }

  lemma ExplainedBegin(p: seq<Bytes>, f: Bytes)
    requires Opens(f)
    ensures Explained(p + [f], Begin(f))
  {
    assert p + [f] == p + [f] + [];
    assert Explains(f, [], Begin(f));
  }

  lemma GrowMatches(first: Bytes, g: Gather, a: Assembly, f: Bytes)
    requires Matches(first, g, a) && |f| >= 6 && Kind(f) == 2 && Low(f) == a.sequence
    ensures var g', b := GatherNext(Some(g), f), Grow(a, f);
            && g' == Some(Gather(g.count + 1, g.data + f[5..]))
            && b.expected == a.expected
            && b.message == Clip(first[..4] + g'.value.data, 4 + a.expected)
            && (|b.message| < 4 + b.expected <==> |g'.value.data| < a.expected)
            && (|b.message| < 4 + b.expected ==> Matches(first, g'.value, b))
  {
    NextNumber(g.count + 1);
    GrowClips(first[..4], g.data, a, f);
  }

  lemma NextNumber(n: nat)
    ensures (n % 16 + 1) % 16 == (n + 1) % 16
  {
  }

  lemma GrowClips(id: Bytes, data: Bytes, a: Assembly, f: Bytes)
    requires |f| >= 6 && |id| == 4 && a.message == Clip(id + data, 4 + a.expected)
    ensures Grow(a, f).message == Clip(id + (data + f[5..]), 4 + a.expected)
  {
    ClipMore(id + data, f[5..], 4 + a.expected);
    assert (id + data) + f[5..] == id + (data + f[5..]);
  }

  lemma ExplainedGrow(p: seq<Bytes>, a: Assembly, f: Bytes)
    requires Explained(p, a) && |f| >= 6 && Kind(f) == 2 && Low(f) == a.sequence
    ensures var g := Grow(a, f);
            if |g.message| < 4 + g.expected then Explained(p + [f], g) else Completed(p, f, g.message)
  {
    var before, first, since :| p == before + [first] + since && Explains(first, since, a);
    var g := Grow(a, f);
    GatheredSnoc(first, since, f);
    GrowMatches(first, Gathered(first, since).value, a, f);
    if |g.message| < 4 + g.expected {
      Longer(p, before, first, since, f);
      assert Explains(first, since + [f], g);
    } else {
      CompletesNow(first, since, f, a);
    }
  }

  lemma CompletesNow(first: Bytes, since: seq<Bytes>, f: Bytes, a: Assembly)
    requires Explains(first, since, a) && |f| >= 6 && Kind(f) == 2 && Low(f) == a.sequence
    requires Gathered(first, since + [f]).Some? && |Gathered(first, since + [f]).value.data| >= a.expected
    requires Grow(a, f).message == Clip(first[..4] + Gathered(first, since + [f]).value.data, 4 + a.expected)
    ensures Completes(first, since, f, Grow(a, f).message)
  {
    hide Consecutives, Data, Gathered, Numbered, GatherNext, Grow;
    GatheredIsChain(first, since);
    GatheredIsChain(first, since + [f]);
    var more := Carried(first, since + [f]);
    assert Clip(first[..4] + more, 4 + a.expected) == first[..4] + more[..a.expected];
  }

  ghost predicate AllExplained(h: seq<Bytes>) {
    forall a :: a in TableAfter([], h) ==> Explained(Of(h, a.id), a)
  }

  lemma {:induction false} HistoryExplains(h: seq<Bytes>)
    ensures Valid(TableAfter([], h)) && AllExplained(h)
  {
    TableAfterValid([], h);
    if h != [] {
      var early, f := h[..|h| - 1], h[|h| - 1];
      assert h == early + [f];
      HistoryExplains(early);
      TableAfterSnoc([], early, f);
      var t := TableAfter([], early);
      forall a | a in TableAfter([], h)
        ensures Explained(Of(h, a.id), a)
      {
        OfSnoc(early, f, a.id);
        if From(f, a.id) {
          OwnAssembly(t, f, a, Of(early, a.id));
        } else {
          OthersStay(t, f, a);
          assert Of(h, a.id) == Of(early, a.id);
        }
      }
    }
  }

  lemma OthersStay(t: Table, f: Bytes, a: Assembly)
    requires Valid(t) && a in After(t, f) && !From(f, a.id)
    ensures a in t
  {
    var o := Lookup(t, if |f| > 4 then SourceId(f) else 0);
    if |f| > 4 && o.Some? {
      GrowSound(o.value, f);
    }
  }

  lemma OwnAssembly(t: Table, f: Bytes, a: Assembly, p: seq<Bytes>)
    requires Valid(t) && a in After(t, f) && From(f, a.id)
    requires forall g :: g in p ==> |g| > 4
    requires forall b :: b in t && b.id == a.id ==> Explained(p, b)
    ensures Explained(p + [f], a)
  {
    AfterValid(t, f);
    var k :| 0 <= k < |After(t, f)| && After(t, f)[k] == a;
    FindUnique(After(t, f), k);
    var open := Lookup(t, a.id);
    assert Converse(open, f).open == Some(a);
    if Kind(f) == 1 {
      ExplainedBegin(p, f);
    } else if Kind(f) == 2 {
      ExplainedGrow(p, open.value, f);
    } else {
      ExplainedAfter(p, a, f);
    }
  }

  // Whatever has arrived, in whatever order and from however many IDs, a report is one of three things: a
  // single frame's own payload, the ID of a first frame, or a message of exactly the announced length made of
  // one first frame and every consecutive frame of that ID since, in order and without a gap.
  lemma DeliveredMessages(h: seq<Bytes>, f: Bytes)
    ensures var outs := Reported(TableAfter([], h), f);
            && |outs| <= 1
            && (outs != [] ==>
                  && |f| > 4 && Kind(f) <= 2
                  && (Kind(f) == 0 ==> Low(f) <= 7 && 5 + Low(f) <= |f| && outs[0] == Output(0, f[..4] + f[5..5 + Low(f)]))
                  && (Kind(f) == 1 ==> Opens(f) && outs[0] == Output(START_OF_MESSAGE, f[..4]))
                  && (Kind(f) == 2 ==>
                        && outs[0].status == 0
                        && Completed(Of(h, SourceId(f)), f, outs[0].data)))
    ensures Valid(TableAfter([], h + [f]))
  {
    HistoryExplains(h);
    TableAfterValid([], h + [f]);
    var t := TableAfter([], h);
    if |f| > 4 && Kind(f) == 2 && Reported(t, f) != [] {
      var id := SourceId(f);
      var a := Lookup(t, id).value;
      assert a in t;
      ExplainedGrow(Of(h, id), a, f);
    }
  }

  // ---------------------------------------------------------------- the reassembler itself

  class IsoTpReassembler {
    var assemblies: Table

    constructor ()
      ensures assemblies == []
    {
      assemblies := [];
    }

    method Reset()
      modifies this
      ensures assemblies == []
    {
      assemblies := [];
    }

    method IndexOf(id: u32) returns (i: nat)
      ensures i == Find(assemblies, id)
    {
      i := 0;
      while i < |assemblies| && assemblies[i].id != id
        invariant i <= |assemblies|
        invariant forall j :: 0 <= j < i ==> assemblies[j].id != id
      {
        i := i + 1;
      }
    }

    method Forget(id: u32)
      modifies this
      ensures assemblies == Drop(old(assemblies), id)
    {
      var i := IndexOf(id);
      if i < |assemblies| {
        assemblies := assemblies[..i] + assemblies[i + 1..];
      }
    }

    method Feed(frame: Bytes) returns (outs: seq<Output>)
      requires Valid(assemblies)
      modifies this
      ensures Valid(assemblies)
      ensures assemblies == After(old(assemblies), frame) && outs == Reported(old(assemblies), frame)
    {
      AfterValid(assemblies, frame);
      if |frame| <= 4 { return []; }
      var kind := frame[4] / 16;
      var i := IndexOf(SourceId(frame));
      if i == |assemblies| {
        if kind == 0 {
          outs := Single(frame);
        } else if kind == 1 {
          outs := First(frame);
        } else {
          outs := [];
        }
        return;
      }
      match kind {
        case 0 => outs := Single(frame);
        case 1 =>
          ghost var t := assemblies;
          Forget(SourceId(frame));
          DropValid(t, SourceId(frame));
          outs := First(frame);
        case 2 => outs := Consecutive(frame);
        case _ => outs := [];
      }
    }

    method Single(frame: Bytes) returns (outs: seq<Output>)
      requires |frame| > 4 && Kind(frame) == 0
      modifies this
      ensures assemblies == After(old(assemblies), frame) && outs == Reported(old(assemblies), frame)
    {
      var length := frame[4] % 16;
      if length > SINGLE_LIMIT { Forget(SourceId(frame)); return []; }
      if length > |frame| - 4 - 1 { Forget(SourceId(frame)); return []; }
      outs := [Output(0, frame[..4] + frame[5..5 + length])];
    }

    // Called with no conversation of this ID in the table.
    method First(frame: Bytes) returns (outs: seq<Output>)
      requires |frame| > 4 && Kind(frame) == 1 && Lookup(assemblies, SourceId(frame)) == None
      modifies this
      ensures assemblies == (if Opens(frame) then Push(old(assemblies), Begin(frame)) else old(assemblies))
      ensures outs == if Opens(frame) then [Output(START_OF_MESSAGE, frame[..4])] else []
    {
      if |frame| < 6 { return []; }
      var high: int, low: int := frame[4] % 16, frame[5];
      var announced := high * 256 + low;
      if announced < SEGMENTED_MINIMUM || announced > MAX_MESSAGE { return []; }
      var payload := frame[6..];
      var taken := if |payload| < announced then |payload| else announced;
      assert Begin(frame).message == frame[..4] + payload[..taken];
      if |assemblies| == MAX_CONVERSATIONS { assemblies := assemblies[1..]; }
      assemblies := assemblies + [Assembly(SourceId(frame), frame[..4] + payload[..taken], announced, 1)];
      outs := [Output(START_OF_MESSAGE, frame[..4])];
    }

    method Consecutive(frame: Bytes) returns (outs: seq<Output>)
      requires |frame| > 4 && Kind(frame) == 2 && Valid(assemblies)
      modifies this
      ensures assemblies == After(old(assemblies), frame) && outs == Reported(old(assemblies), frame)
    {
      var i := IndexOf(SourceId(frame));
      if i == |assemblies| { return []; }
      var found := assemblies[i];
      if |frame| < 6 || frame[4] % 16 != found.sequence {
        assemblies := assemblies[..i] + assemblies[i + 1..];
        return [];
      }
      var payload := frame[5..];
      var outstanding := found.expected - (|found.message| - 4);
      var taken := if |payload| < outstanding then |payload| else outstanding;
      assert found in assemblies && Sound(found);
      assert Grow(found, frame).message == found.message + payload[..taken];
      found := found.(sequence := (found.sequence + 1) % 16, message := found.message + payload[..taken]);
      if |found.message| - 4 < found.expected {
        assemblies := assemblies[i := found];
        return [];
      }
      outs := [Output(0, found.message)];
      assemblies := assemblies[..i] + assemblies[i + 1..];
    }
  }
}
