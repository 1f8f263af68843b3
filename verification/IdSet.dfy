// tools/script_runner.c: the set of CAN identifiers seen, kept by open addressing in a table of 4096 slots.
module IdSet {
  import opened Bytes
  import IsoTp

  const SLOTS := 4096
  const CAP := SLOTS / 2

  // Where an identifier's probe begins.
  function Home(id: u32): (slot: nat)
    ensures slot < SLOTS
  {
    id * 2654435761 % 0x1_0000_0000 % SLOTS
  }

  // The slot k places on from `home`, going round.
  function Along(home: nat, k: nat): nat
    requires home < SLOTS && k <= SLOTS
  {
    if home + k < SLOTS then home + k else home + k - SLOTS
  }

  function Distance(home: nat, slot: nat): (k: nat)
    requires home < SLOTS && slot < SLOTS
    ensures k < SLOTS && Along(home, k) == slot
  {
    if home <= slot then slot - home else slot + SLOTS - home
  }

  function UsedSlots(used: seq<bool>): set<nat> {
    set i: nat | i < |used| && used[i]
  }

  function FreeSlots(used: seq<bool>): set<nat> {
    set i: nat | i < |used| && !used[i]
  }

  function Stored(ids: seq<u32>, used: seq<bool>): set<u32>
    requires |ids| == |used|
  {
    set i: nat | i < |used| && used[i] :: ids[i]
  }

  // Every slot on the way from `home` to the one k places on is in use.
  ghost predicate Unbroken(used: seq<bool>, home: nat, k: nat)
    requires |used| == SLOTS && home < SLOTS && k <= SLOTS
  {
    forall j: nat :: j < k ==> used[Along(home, j)]
  }

  ghost predicate Reachable(ids: seq<u32>, used: seq<bool>)
    requires |ids| == |used| == SLOTS
  {
    forall i: nat :: i < SLOTS && used[i] ==> Unbroken(used, Home(ids[i]), Distance(Home(ids[i]), i))
  }

  ghost predicate OneSlotEach(ids: seq<u32>, used: seq<bool>)
    requires |ids| == |used|
  {
    forall i, j :: 0 <= i < j < |used| && used[i] && used[j] ==> ids[i] != ids[j]
  }

  // What the table keeps: `noted` is every identifier noted so far.
  ghost predicate Table(ids: seq<u32>, used: seq<bool>, unique: nat, noted: set<u32>) {
    && |ids| == |used| == SLOTS && unique <= CAP
    && Reachable(ids, used) && OneSlotEach(ids, used)
    && |UsedSlots(used)| == unique && |Stored(ids, used)| == unique
    && Stored(ids, used) <= noted
    && (unique < CAP ==> Stored(ids, used) == noted)
  }

  function Min(a: nat, b: nat): nat {
    if a < b then a else b
  }

  // The count is exact up to the cap, and at least half of the slots are free.
  lemma TableCounts(ids: seq<u32>, used: seq<bool>, unique: nat, noted: set<u32>)
    requires Table(ids, used, unique, noted)
    ensures unique == Min(|noted|, CAP)
    ensures |FreeSlots(used)| >= SLOTS / 2
  {
    SubsetSize(Stored(ids, used), noted);
    UptoAll(SLOTS);
    assert FreeSlots(used) == Upto(SLOTS) - UsedSlots(used);
  }

  // A probe that begins anywhere meets a free slot before it comes back to where it began.
  lemma ProbeMeetsFree(ids: seq<u32>, used: seq<bool>, unique: nat, noted: set<u32>, home: nat)
    requires Table(ids, used, unique, noted) && home < SLOTS
    ensures !Unbroken(used, home, SLOTS)
  {
    var k := SomeFree(used, home);
  }

  function Upto(n: nat): set<nat> {
    if n == 0 then {} else Upto(n - 1) + {n - 1}
  }

  lemma {:induction false} UptoAll(n: nat)
    ensures |Upto(n)| == n && forall i: nat :: i in Upto(n) <==> i < n
  {
    if n > 0 { UptoAll(n - 1); }
  }

  lemma SomeFree(used: seq<bool>, home: nat) returns (k: nat)
    requires |used| == SLOTS && |UsedSlots(used)| < SLOTS && home < SLOTS
    ensures k < SLOTS && !used[Along(home, k)]
  {
    UptoAll(SLOTS);
    var free := Upto(SLOTS) - UsedSlots(used);
    assert |free| >= SLOTS - |UsedSlots(used)|;
    var i :| i in free;
    k := Distance(home, i);
  }

  // A probe that has passed k slots without the identifier and stands at a free one shows it is not stored.
  lemma NotStored(ids: seq<u32>, used: seq<bool>, id: u32, k: nat)
    requires |ids| == |used| == SLOTS && Reachable(ids, used) && k < SLOTS
    requires forall j: nat :: j < k ==> ids[Along(Home(id), j)] != id
    requires !used[Along(Home(id), k)]
    ensures id !in Stored(ids, used)
  {
    hide Home;
    var h := Home(id);
    forall i: nat | i < SLOTS && used[i] ensures ids[i] != id {
      var d := Distance(h, i);
      assert d < k ==> ids[Along(h, d)] != id;
      RunFromHome(ids, used, i);
      NoGap(used, h, d, k);
    }
  }

  lemma StoredAt(ids: seq<u32>, used: seq<bool>, slot: nat)
    requires |ids| == |used| && slot < |used| && used[slot]
    ensures ids[slot] in Stored(ids, used)
  {
  }

  lemma RunFromHome(ids: seq<u32>, used: seq<bool>, i: nat)
    requires |ids| == |used| == SLOTS && Reachable(ids, used) && i < SLOTS && used[i]
    ensures Unbroken(used, Home(ids[i]), Distance(Home(ids[i]), i))
  {
  }

  lemma NoGap(used: seq<bool>, home: nat, d: nat, k: nat)
    requires |used| == SLOTS && home < SLOTS && d < SLOTS && k < SLOTS
    ensures Unbroken(used, home, d) && !used[Along(home, k)] ==> d <= k
  {
  }

  lemma Stores(ids: seq<u32>, used: seq<bool>, unique: nat, noted: set<u32>, id: u32, k: nat)
    requires Table(ids, used, unique, noted) && unique < CAP && k < SLOTS
    requires Unbroken(used, Home(id), k) && !used[Along(Home(id), k)]
    requires id !in Stored(ids, used)
    ensures var slot := Along(Home(id), k);
            Table(ids[slot := id], used[slot := true], unique + 1, noted + {id})
  {
    hide Home, Reachable, OneSlotEach, Stored;
    var slot := Along(Home(id), k);
    var ids1, used1 := ids[slot := id], used[slot := true];
    assert UsedSlots(used1) == UsedSlots(used) + {slot};
    StoredMore(ids, used, id, slot);
    ReachableMore(ids, used, id, k);
    OneSlotMore(ids, used, id, slot);
  }

  lemma OneSlotMore(ids: seq<u32>, used: seq<bool>, id: u32, slot: nat)
    requires |ids| == |used| && slot < |used| && OneSlotEach(ids, used) && id !in Stored(ids, used)
    ensures OneSlotEach(ids[slot := id], used[slot := true])
  {
    var ids1, used1 := ids[slot := id], used[slot := true];
    forall i, j | 0 <= i < j < |used| && used1[i] && used1[j] ensures ids1[i] != ids1[j] {
      assert i != slot ==> ids[i] in Stored(ids, used);
      assert j != slot ==> ids[j] in Stored(ids, used);
    }
  }

  lemma StoredMore(ids: seq<u32>, used: seq<bool>, id: u32, slot: nat)
    requires |ids| == |used| && slot < |used| && !used[slot]
    ensures Stored(ids[slot := id], used[slot := true]) == Stored(ids, used) + {id}
  {
    var ids1, used1 := ids[slot := id], used[slot := true];
    assert used1[slot] && ids1[slot] == id;
    forall x | x in Stored(ids, used) ensures x in Stored(ids1, used1) {
      var i: nat :| i < |used| && used[i] && ids[i] == x;
      assert used1[i] && ids1[i] == x;
    }
  }

  lemma ReachableMore(ids: seq<u32>, used: seq<bool>, id: u32, k: nat)
    requires |ids| == |used| == SLOTS && Reachable(ids, used) && k < SLOTS
    requires Unbroken(used, Home(id), k)
    ensures var slot := Along(Home(id), k);
            Reachable(ids[slot := id], used[slot := true])
  {
    hide Home;
    var slot := Along(Home(id), k);
    var ids1, used1 := ids[slot := id], used[slot := true];
    forall i: nat | i < SLOTS && used1[i]
      ensures Unbroken(used1, Home(ids1[i]), Distance(Home(ids1[i]), i))
    {
      if i == slot {
        assert Distance(Home(id), slot) == k;
      } else {
        assert Unbroken(used, Home(ids[i]), Distance(Home(ids[i]), i));
      }
    }
  }

  // ---------------------------------------------------------------- the statistics

  type Data = d: Bytes | |d| == 4128 witness seq(4128, i => 0)

  datatype Message = Message(dataSize: u32, data: Data)

  // The four octets, the first the most significant: the same number the receive path knows a sender by.
  function Identifier(m: Message): u32 {
    IsoTp.SourceId(m.data)
  }

  // Two messages count as one identifier exactly when their first four octets agree, and an eleven-bit identifier
  // is in the last two of them.
  lemma IdentifierIsTheFirstFour(m: Message, n: Message)
    ensures Identifier(m) == Identifier(n) <==> m.data[..4] == n.data[..4]
    ensures m.data[0] == 0 && m.data[1] == 0 ==> Identifier(m) == 0x100 * (m.data[2] as int) + m.data[3]
  {
    IsoTp.SourceIdIsTheFirstFour(m.data, n.data);
  }

  // The identifiers of the messages long enough to carry one.
  function Identifiers(messages: seq<Message>): set<u32> {
    set m | m in messages && m.dataSize >= 4 :: Identifier(m)
  }

  class Stats {
    const ids: array<u32>
    const idUsed: array<bool>
    var uniqueIds: nat
    var total: nat
    ghost var noted: set<u32>

    ghost predicate Valid()
      reads this, ids, idUsed
    {
      Table(ids[..], idUsed[..], uniqueIds, noted)
    }

    constructor ()
      ensures Valid() && noted == {} && total == 0 && uniqueIds == 0 && fresh(ids) && fresh(idUsed)
    {
      ids := new u32[SLOTS](i => 0);
      idUsed := new bool[SLOTS](i => false);
      uniqueIds, total, noted := 0, 0, {};
      new;
      assert UsedSlots(idUsed[..]) == {};
      assert Stored(ids[..], idUsed[..]) == {};
    }

    // Whatever has been noted, the count is the number of distinct identifiers, up to the cap.
    method NoteId(id: u32)
      requires Valid()
      modifies this`uniqueIds, this`noted, ids, idUsed
      ensures Valid() && noted == old(noted) + {id} && uniqueIds == Min(|noted|, CAP)
    {
      hide Home, Along, Reachable, OneSlotEach, UsedSlots, Stored, Unbroken;
      ghost var was, wasUsed := ids[..], idUsed[..];
      if uniqueIds >= CAP {
        noted := noted + {id};
        TableCounts(was, wasUsed, uniqueIds, noted);
        return;
      }
      var slot, found, k := Probe(id);
      if found {
        StoredAt(was, wasUsed, slot);
        noted := noted + {id};
        TableCounts(was, wasUsed, uniqueIds, noted);
        return;
      }
      NotStored(was, wasUsed, id, k);
      Stores(was, wasUsed, uniqueIds, noted, id, k);
      idUsed[slot] := true;
      ids[slot] := id;
      uniqueIds := uniqueIds + 1;
      noted := noted + {id};
      assert ids[..] == was[slot := id] && idUsed[..] == wasUsed[slot := true];
      TableCounts(ids[..], idUsed[..], uniqueIds, noted);
    }

    // The loop: where the identifier is, or the first free slot from its home on, k places along.
    method Probe(id: u32) returns (slot: nat, found: bool, ghost k: nat)
      requires Valid() && uniqueIds < CAP
      ensures slot < SLOTS && k < SLOTS && slot == Along(Home(id), k)
      ensures found ==> idUsed[slot] && ids[slot] == id
      ensures !found ==> !idUsed[slot]
      ensures Unbroken(idUsed[..], Home(id), k)
      ensures forall j: nat :: j < k ==> ids[..][Along(Home(id), j)] != id
    {
      hide Home, Reachable, OneSlotEach, UsedSlots, Stored;
      ghost var was, wasUsed := ids[..], idUsed[..];
      slot, found, k := Home(id), false, 0;
      ghost var free := SomeFree(wasUsed, Home(id));
      while idUsed[slot]
        invariant k <= free && slot == Along(Home(id), k)
        invariant Unbroken(wasUsed, Home(id), k)
        invariant forall j: nat :: j < k ==> was[Along(Home(id), j)] != id
        decreases free - k
      {
        assert wasUsed[slot] && was[slot] == ids[slot];
        if ids[slot] == id { return slot, true, k; }
        slot := (slot + 1) % SLOTS;
        k := k + 1;
      }
      assert !wasUsed[slot];
    }

    // Only a message of four octets or more names an identifier.
    method NoteMessage(m: Message)
      requires Valid()
      modifies this, ids, idUsed
      ensures Valid() && total == old(total) + 1
      ensures noted == old(noted) + Identifiers([m])
      ensures uniqueIds == Min(|noted|, CAP)
    {
      total := total + 1;
      assert m in [m];
      if m.dataSize >= 4 {
        NoteId(Identifier(m));
        assert Identifiers([m]) == {Identifier(m)};
      } else {
        assert Identifiers([m]) == {};
        TableCounts(ids[..], idUsed[..], uniqueIds, noted);
      }
    }

    // A batch as a read hands it out.
    method NoteAll(messages: seq<Message>)
      requires Valid()
      modifies this, ids, idUsed
      ensures Valid() && total == old(total) + |messages|
      ensures noted == old(noted) + Identifiers(messages)
      ensures uniqueIds == Min(|noted|, CAP)
    {
      hide Table, Identifiers;
      NoIdentifiers();
      assert messages[..0] == [];
      for i := 0 to |messages|
        invariant Valid() && total == old(total) + i
        invariant noted == old(noted) + Identifiers(messages[..i])
      {
        NoteMessage(messages[i]);
        assert messages[..i + 1] == messages[..i] + [messages[i]];
        IdentifiersSnoc(messages[..i], messages[i]);
      }
      assert messages[..|messages|] == messages;
      TableCounts(ids[..], idUsed[..], uniqueIds, noted);
    }
  }

  lemma NoIdentifiers()
    ensures Identifiers([]) == {}
  {
  }

  lemma IdentifiersSnoc(messages: seq<Message>, m: Message)
    ensures Identifiers(messages + [m]) == Identifiers(messages) + Identifiers([m])
  {
    hide Identifier;
    var all := messages + [m];
    forall x | x in Identifiers(messages) + Identifiers([m]) ensures x in Identifiers(all) {
      if x in Identifiers(messages) {
        var n :| n in messages && n.dataSize >= 4 && Identifier(n) == x;
        assert n in all;
      } else {
        assert m in all;
      }
    }
  }
}
